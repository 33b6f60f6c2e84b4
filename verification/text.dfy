/** The strings shown for a month's plant list: the separator-joined list
    (JavaScript's `Array.prototype.join`) and the centre preview, which shows
    at most three plants and marks a longer list with an ellipsis. */
module Text {

  /** The separator between plant names in the preview. */
  const Separator: string := ", "

  /** The marker appended to the preview of a list longer than the preview. */
  const Ellipsis: string := "..."

  /** How many plants the preview shows at most. */
  const PreviewLength: nat := 3

  /** `xs` joined by `sep`: the elements in order, `sep` between each two
      neighbours, nothing before the first or after the last. So a non-empty
      join starts with the first element and is as long as all elements plus
      one separator per gap. */
  function Join(xs: seq<string>, sep: string): (r: string)
    ensures |xs| > 0 ==> |r| == SumLengths(xs) + (|xs| - 1) * |sep|
    ensures |xs| > 0 ==> r[..|xs[0]|] == xs[0]
  {
    if |xs| == 0 then ""
    else if |xs| == 1 then xs[0]
    else xs[0] + sep + Join(xs[1..], sep)
  }

  /** Total length of the elements of `xs`. */
  function SumLengths(xs: seq<string>): nat
  {
    if |xs| == 0 then 0 else |xs[0]| + SumLengths(xs[1..])
  }

  /** Joining two non-empty lists is joining each and putting one separator
      between the two results. */
  lemma {:induction false} JoinConcat(a: seq<string>, b: seq<string>, sep: string)
    requires |a| > 0 && |b| > 0
    ensures Join(a + b, sep) == Join(a, sep) + sep + Join(b, sep)
  {
    if |a| == 1 {
      assert (a + b)[0] == a[0];
      assert (a + b)[1..] == b;
    } else {
      assert (a + b)[0] == a[0];
      assert (a + b)[1..] == a[1..] + b;
      JoinConcat(a[1..], b, sep);
    }
  }

  /** A three-element join spelled out. */
  lemma JoinThree(xs: seq<string>, sep: string)
    requires |xs| == 3
    ensures Join(xs, sep) == xs[0] + sep + xs[1] + sep + xs[2]
  {
    assert xs[1..][1..] == [xs[2]];
    calc {
      Join(xs, sep);
      xs[0] + sep + Join(xs[1..], sep);
      xs[0] + sep + (xs[1] + sep + Join(xs[1..][1..], sep));
      xs[0] + sep + (xs[1] + sep + xs[2]);
    }
  }

  /** The join computed the way `Array.prototype.join` walks the array:
      left to right, emitting a separator before every element but the
      first. */
  method JoinLoop(xs: seq<string>, sep: string) returns (r: string)
    ensures r == Join(xs, sep)
  {
    r := "";
    var i := 0;
    while i < |xs|
      invariant 0 <= i <= |xs|
      invariant r == Join(xs[..i], sep)
    {
      if i == 0 {
        r := xs[0];
        assert xs[..1] == [xs[0]];
      } else {
        JoinConcat(xs[..i], [xs[i]], sep);
        assert xs[..i] + [xs[i]] == xs[..i + 1];
        r := r + sep + xs[i];
      }
      i := i + 1;
    }
    assert xs[..i] == xs;
  }

  /** The centre preview of a plant list: a list of at most three plants is
      shown in full, joined by ", ", with no ellipsis; a longer one as its
      first three plants, in order, joined by ", ", followed by one "...". */
  function Preview(plants: seq<string>): (r: string)
    ensures |plants| <= 3 ==> r == Join(plants, ", ")
    ensures |plants| > 3 ==> r == plants[0] + ", " + plants[1] + ", " + plants[2] + "..."
  {
    var shown := if |plants| <= PreviewLength then plants else plants[..PreviewLength];
    if |plants| > PreviewLength then
      JoinThree(shown, Separator);
      Join(shown, Separator) + Ellipsis
    else
      Join(shown, Separator)
  }

  /** The preview is the whole joined list exactly when the list has at most
      three plants: for a longer list, where the full join continues with
      ", " after the third plant, the preview shows "..." instead. */
  lemma {:induction false} PreviewIsFullListIff(plants: seq<string>)
    ensures Preview(plants) == Join(plants, ", ") <==> |plants| <= 3
  {
    if |plants| > 3 {
      var head := Join(plants[..3], ", ");
      assert plants == plants[..3] + plants[3..];
      JoinConcat(plants[..3], plants[3..], ", ");
      var full := Join(plants, ", ");
      assert full == head + ", " + Join(plants[3..], ", ");
      assert full[|head|] == ',';
      assert Preview(plants)[|head|] == '.';
    }
  }
}
