/** What the component shows for a hover state: the centre overlay of the
    chart and the detail panel below it. */
module View {
  import opened BloomTables
  import opened Sunburst
  import opened Hover
  import opened Text

  /** The prompt shown in the centre while nothing is hovered. */
  const PromptText: string := "Hover over a month to see plants"

  /** The label shown above the preview. */
  const BloomingLabel: string := "Blooming:"

  /** The text that follows the month name in the detail panel's title. */
  const TitleSuffix: string := " Blooming Plants:"

  /** The centre overlay: the prompt, or the month, the label and the
      preview of the month's plants. */
  datatype Centre = Prompt(text: string) | Blooming(month: string, heading: string, preview: string)

  /** The detail panel: a title and the bullet list of plants. */
  datatype Panel = Panel(title: string, plants: seq<string>)

  /** JavaScript truthiness of the selected month: present and not the
      empty string. */
  predicate Shown(selected: Option<string>)
  {
    selected.Some? && selected.value != ""
  }

  /** The centre overlay for state `s`, looking the month up in `plants`. */
  function CentreOf(s: HoverState, plants: map<string, seq<string>>): (c: Centre)
    requires Shown(s.selectedMonth) ==> s.selectedMonth.value in plants
    ensures c.Prompt? <==> !Shown(s.selectedMonth)
    ensures c.Prompt? ==> c.text == PromptText
    ensures c.Blooming? ==>
      && c.month == s.selectedMonth.value
      && c.heading == BloomingLabel
      && c.preview == Preview(plants[c.month])
  {
    if Shown(s.selectedMonth) then
      var month := s.selectedMonth.value;
      Blooming(month, BloomingLabel, Preview(plants[month]))
    else
      Prompt(PromptText)
  }

  /** The detail panel for state `s`: present only while a month is shown,
      titled with that month, listing all of its plants in table order. */
  function PanelOf(s: HoverState, plants: map<string, seq<string>>): (p: Option<Panel>)
    requires Shown(s.selectedMonth) ==> s.selectedMonth.value in plants
    ensures p.Some? <==> Shown(s.selectedMonth)
    ensures p.Some? ==>
      && p.value.title == s.selectedMonth.value + TitleSuffix
      && p.value.plants == plants[s.selectedMonth.value]
  {
    if Shown(s.selectedMonth) then
      var month := s.selectedMonth.value;
      Some(Panel(month + TitleSuffix, plants[month]))
    else
      None
  }

  /** Every month name of the inner ring is truthy, so selecting any slice's
      month shows it. */
  lemma MonthNamesShown()
    ensures forall i :: 0 <= i < |MonthData| ==> Shown(Some(MonthData[i].name))
  {
    StaticMonthOrder();
  }

  /** For every state the component can be in, the plant lookup succeeds and
      a month is shown exactly while a slice is active. */
  lemma ValidStateShowsActiveMonth(s: HoverState)
    requires Valid(s, MonthData)
    ensures Shown(s.selectedMonth) ==> s.selectedMonth.value in PlantData
    ensures Shown(s.selectedMonth) <==> s.activeIndex.Some?
  {
    StaticLookupsNeverMiss();
    StaticMonthOrder();
  }

  /** Before any hover the centre shows the prompt and there is no panel. */
  lemma InitialView()
    ensures CentreOf(Initial, PlantData) == Prompt("Hover over a month to see plants")
    ensures PanelOf(Initial, PlantData) == None
  {
  }

  /** After hovering slice `i`, the centre shows that slice's month with
      the preview of its plants and the panel lists them all. */
  lemma HoverView(s: HoverState, i: int)
    requires 0 <= i < |MonthData|
    ensures var h := OnPieEnter(s, MonthData, i);
      && Shown(h.selectedMonth)
      && h.selectedMonth.value in PlantData
      && CentreOf(h, PlantData) ==
           Blooming(MonthData[i].name, "Blooming:", Preview(PlantData[MonthData[i].name]))
      && PanelOf(h, PlantData) ==
           Some(Panel(MonthData[i].name + " Blooming Plants:", PlantData[MonthData[i].name]))
  {
    ValidStateShowsActiveMonth(OnPieEnter(s, MonthData, i));
  }

  /** After any sequence of pointer events the panel is present exactly when
      the last event entered a slice. */
  lemma {:induction false} PanelAfterRun(events: seq<Event>)
    requires InRange(events, MonthData)
    ensures var s := Run(Initial, MonthData, events);
      && (Shown(s.selectedMonth) ==> s.selectedMonth.value in PlantData)
      && (PanelOf(s, PlantData).Some? <==> |events| > 0 && events[|events| - 1].PieEnter?)
  {
    var s := Run(Initial, MonthData, events);
    InitialValid(MonthData);
    RunPreservesValid(Initial, MonthData, events);
    RunLastEventWins(Initial, MonthData, events);
    ValidStateShowsActiveMonth(s);
  }

  /** Hovering July (slice 7) shows "July Blooming Plants:" over its four
      plants and the preview "Lily, Sunflower, Hydrangea...". */
  lemma JulyScenario()
    ensures 7 < |MonthData| && MonthData[7].name == "July"
    ensures PanelOf(OnPieEnter(Initial, MonthData, 7), PlantData) ==
      Some(Panel("July Blooming Plants:", ["Lily", "Sunflower", "Hydrangea", "Daylily"]))
    ensures CentreOf(OnPieEnter(Initial, MonthData, 7), PlantData) ==
      Blooming("July", "Blooming:", "Lily, Sunflower, Hydrangea...")
  {
    assert MonthData[7].name == "July" by { StaticMonthOrder(); }
    assert "July" + TitleSuffix == "July Blooming Plants:";
  }

  /** Hovering February (slice 0) lists its two plants, and the preview is
      "Snowdrop, Winter Aconite" with no ellipsis. */
  lemma FebruaryScenario()
    ensures 0 < |MonthData| && MonthData[0].name == "February"
    ensures PanelOf(OnPieEnter(Initial, MonthData, 0), PlantData) ==
      Some(Panel("February Blooming Plants:", ["Snowdrop", "Winter Aconite"]))
    ensures CentreOf(OnPieEnter(Initial, MonthData, 0), PlantData) ==
      Blooming("February", "Blooming:", "Snowdrop, Winter Aconite")
  {
    assert MonthData[0].name == "February" by { StaticMonthOrder(); }
    var plants := PlantData["February"];
    assert plants == ["Snowdrop", "Winter Aconite"];
    assert Join(plants, ", ") == "Snowdrop" + ", " + "Winter Aconite";
    assert "Snowdrop" + ", " + "Winter Aconite" == "Snowdrop, Winter Aconite";
    assert "February" + TitleSuffix == "February Blooming Plants:";
  }
}
