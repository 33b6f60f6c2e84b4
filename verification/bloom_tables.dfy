/** The two static tables of the blooming calendar (season -> months and
    month -> plants) and the season colour table, together with the
    consistency facts the rendering relies on: every month the season table
    names has a plant list, every season has a colour, and the season table
    partitions the twelve plant-table months. */
module BloomTables {

  /** One entry of the season table: a season name and its months, in the
      order the table lists them. */
  datatype Season = Season(name: string, months: seq<string>)

  /** The season table, in source order (Winter, Fall, Summer, Spring), each
      season listing its months latest-first. */
  const Seasons: seq<Season> := [
    Season("Winter", ["February", "January", "December"]),
    Season("Fall", ["November", "October", "September"]),
    Season("Summer", ["August", "July", "June"]),
    Season("Spring", ["May", "April", "March"])
  ]

  /** Plants in bloom, by month name. */
  const PlantData: map<string, seq<string>> := map[
    "March" := ["Daffodil", "Tulip", "Hyacinth"],
    "April" := ["Tulip", "Daffodil", "Cherry Blossom", "Azalea"],
    "May" := ["Peony", "Lilac", "Rose", "Iris"],
    "June" := ["Rose", "Peony", "Lavender"],
    "July" := ["Lily", "Sunflower", "Hydrangea", "Daylily"],
    "August" := ["Sunflower", "Dahlia", "Black-eyed Susan", "Coneflower"],
    "September" := ["Dahlia", "Aster", "Mum", "Goldenrod", "Sedum"],
    "October" := ["Mum", "Aster", "Stonecrop", "Goldenrod"],
    "November" := ["Mum", "Camellia", "Winter Jasmine"],
    "December" := ["Camellia", "Winter Jasmine", "Hellebore"],
    "January" := ["Hellebore", "Winter Aconite", "Snowdrop"],
    "February" := ["Snowdrop", "Winter Aconite"]
  ]

  /** Fill colour of each season's arcs. */
  const SeasonColors: map<string, string> := map[
    "Spring" := "#c6d7b9",
    "Summer" := "#ff4e50",
    "Fall" := "#e49b0f",
    "Winter" := "#e3e3ff"
  ]

  /** Every month that a season of `seasons` lists is a key of `plants`. */
  predicate MonthsHavePlants(seasons: seq<Season>, plants: map<string, seq<string>>)
  {
    forall k, j :: 0 <= k < |seasons| && 0 <= j < |seasons[k].months| ==>
      seasons[k].months[j] in plants
  }

  /** Every season of `seasons` is a key of `colours`. */
  predicate SeasonsHaveColours(seasons: seq<Season>, colours: map<string, string>)
  {
    forall k :: 0 <= k < |seasons| ==> seasons[k].name in colours
  }

  /** All month names of a season table, season by season. */
  function AllMonths(seasons: seq<Season>): (r: seq<string>)
    ensures forall k, j :: 0 <= k < |seasons| && 0 <= j < |seasons[k].months| ==>
      seasons[k].months[j] in r
    ensures forall m :: m in r ==> exists k :: 0 <= k < |seasons| && m in seasons[k].months
  {
    if |seasons| == 0 then []
    else seasons[0].months + AllMonths(seasons[1..])
  }

  /** No name occurs twice in `xs`. */
  predicate Distinct(xs: seq<string>)
  {
    forall a, b :: 0 <= a < b < |xs| ==> xs[a] != xs[b]
  }

  /** The month names of the static season table, in table order. */
  lemma StaticAllMonths()
    ensures AllMonths(Seasons) == ["February", "January", "December", "November", "October",
                                   "September", "August", "July", "June", "May", "April", "March"]
  {
  }

  /** The lookups of a month's plants and of a season's colour never miss
      for the static tables. */
  lemma StaticLookupsTotal()
    ensures MonthsHavePlants(Seasons, PlantData)
    ensures SeasonsHaveColours(Seasons, SeasonColors)
  {
  }

  /** The static season table lists twelve months, none of them twice. */
  lemma StaticMonthsDistinct()
    ensures |AllMonths(Seasons)| == 12 && Distinct(AllMonths(Seasons))
  {
    StaticAllMonths();
  }

  /** The months of the static season table are exactly the plant-table
      keys, so together with `StaticMonthsDistinct` the four seasons
      partition the twelve months. */
  lemma StaticMonthsAreKeys()
    ensures (set m | m in AllMonths(Seasons)) == PlantData.Keys
  {
    StaticAllMonths();
  }

  /** No two seasons of the static table share a name. */
  lemma StaticSeasonNamesDistinct()
    ensures forall k, k' :: 0 <= k < k' < |Seasons| ==> Seasons[k].name != Seasons[k'].name
  {
  }
}
