/**
 * The colour picker (`app/components/ColorPicker.tsx`): thirteen fixed colours,
 * followed by the extra colours each "more" press adds without repeating one already
 * there, until "Show Less" drops the extras.  The extra colours are random hues in
 * the source; here each press receives the generated list as a parameter.
 */
module ColorPicker {

  /** `COLOR_OPTIONS`. */
  const ColorOptions: seq<string> := [
    "#FF6B6B", "#4ECDC4", "#45B7D1", "#96CEB4", "#FFD93D", "#9B59B6", "#E67E22",
    "#2ECC71", "#F1C40F", "#3498DB", "#E74C3C", "#1ABC9C", "#E84393"]

  predicate NoDups(s: seq<string>) {
    forall i, j :: 0 <= i < j < |s| ==> s[i] != s[j]
  }

  /** `[...new Set(s)]`: the first occurrence of each colour, in the order of first occurrence. */
  function Distinct(s: seq<string>): (r: seq<string>)
    ensures NoDups(r)
    ensures forall x :: x in r <==> x in s
    ensures |r| <= |s|
  {
    if s == [] then []
    else
      var front, x := Distinct(s[..|s| - 1]), s[|s| - 1];
      assert s == s[..|s| - 1] + [x];
      if x in front then front else front + [x]
  }

  /** A list with no repeats is its own set. */
  lemma {:induction false} DistinctOfDistinct(s: seq<string>)
    requires NoDups(s)
    ensures Distinct(s) == s
  {
    if s != [] {
      var front := s[..|s| - 1];
      DistinctOfDistinct(front);
      assert s[|s| - 1] !in front;
      assert s == front + [s[|s| - 1]];
    }
  }

  /** Appending more colours only ever extends the set's list. */
  lemma {:induction false} DistinctExtends(p: seq<string>, q: seq<string>)
    ensures |Distinct(p)| <= |Distinct(p + q)| && Distinct(p + q)[..|Distinct(p)|] == Distinct(p)
    decreases |q|
  {
    if q == [] {
      assert p + q == p;
    } else {
      var front := q[..|q| - 1];
      assert (p + q)[..|p + q| - 1] == p + front;
      DistinctExtends(p, front);
    }
  }

  /**
   * The set's list is built in order of first occurrence: the set of any prefix of
   * the input is a prefix of the set of the whole.
   */
  lemma DistinctInFirstOrder(s: seq<string>, k: int)
    requires 0 <= k <= |s|
    ensures |Distinct(s[..k])| <= |Distinct(s)| && Distinct(s)[..|Distinct(s[..k])|] == Distinct(s[..k])
  {
    assert s == s[..k] + s[k..];
    DistinctExtends(s[..k], s[k..]);
  }

  /** A colour of a list without repeats sits at exactly one place in it. */
  lemma ExactlyOnce(s: seq<string>, x: string)
    requires NoDups(s) && x in s
    ensures exists i :: 0 <= i < |s| && s[i] == x && forall j :: 0 <= j < |s| && s[j] == x ==> j == i
  {
    var i :| 0 <= i < |s| && s[i] == x;
  }

  /** `handleShowMore`'s new list: the old extras, then each newly generated colour not already among them. */
  function MoreColors(prev: seq<string>, generated: seq<string>): (r: seq<string>)
    requires NoDups(prev)
    ensures NoDups(r)
    ensures |prev| <= |r| && r[..|prev|] == prev
    ensures forall x :: x in r <==> x in prev || x in generated
  {
    DistinctOfDistinct(prev);
    DistinctExtends(prev, generated);
    Distinct(prev + generated)
  }

  /** Every generated colour ends up in the extras exactly once, however often it was generated. */
  lemma GeneratedOnce(prev: seq<string>, generated: seq<string>, x: string)
    requires NoDups(prev) && x in generated
    ensures var r := MoreColors(prev, generated);
      exists i :: 0 <= i < |r| && r[i] == x && forall j :: 0 <= j < |r| && r[j] == x ==> j == i
  {
    ExactlyOnce(MoreColors(prev, generated), x);
  }

  class ColorPickerState {
    var additionalColors: seq<string>

    predicate Valid()
      reads this
    {
      NoDups(additionalColors)
    }

    /** `allColors`: the fixed colours, then the extras; a colour in both groups is listed twice. */
    function AllColors(): (r: seq<string>)
      reads this
      ensures |r| == |ColorOptions| + |additionalColors|
      ensures r[..|ColorOptions|] == ColorOptions && r[|ColorOptions|..] == additionalColors
    {
      ColorOptions + additionalColors
    }

    /** The "Show Less" button is there iff there are extras. */
    predicate ShowLessVisible()
      reads this
    {
      |additionalColors| > 0
    }

    constructor ()
      ensures additionalColors == [] && Valid() && !ShowLessVisible()
    {
      additionalColors := [];
    }

    /** `handleShowMore`, given the colours the press generated. */
    method ShowMore(generated: seq<string>)
      requires Valid()
      modifies this
      ensures Valid()
      ensures additionalColors == MoreColors(old(additionalColors), generated)
      ensures generated != [] ==> ShowLessVisible()
    {
      additionalColors := MoreColors(additionalColors, generated);
      if generated != [] {
        assert generated[0] in additionalColors;
      }
    }

    /** `handleShowLess`. */
    method ShowLess()
      modifies this
      ensures additionalColors == [] && Valid() && !ShowLessVisible()
      ensures AllColors() == ColorOptions
    {
      additionalColors := [];
    }
  }

  /**
   * A fixed colour that is also generated shows up twice in the picker.  The premise
   * needs a generated colour spelled exactly like a fixed one; the generator's
   * lower-case output never is (LowerCaseExtrasNeverRepeat).
   */
  lemma FixedColorRepeated(prev: seq<string>, generated: seq<string>, x: string)
    requires NoDups(prev) && x in ColorOptions && x in generated
    ensures var all := ColorOptions + MoreColors(prev, generated);
      exists i, j :: 0 <= i < |ColorOptions| <= j < |all| && all[i] == x && all[j] == x
  {
    var all := ColorOptions + MoreColors(prev, generated);
    var i :| 0 <= i < |ColorOptions| && ColorOptions[i] == x;
    var k :| 0 <= k < |MoreColors(prev, generated)| && MoreColors(prev, generated)[k] == x;
    assert all[i] == x && all[|ColorOptions| + k] == x;
  }

  /** No capital letter: the `toHexString()` form the generator produces (`#rrggbb` in lower case). */
  predicate NoCapitals(x: string) {
    forall k :: 0 <= k < |x| ==> !('A' <= x[k] <= 'Z')
  }

  /** Every fixed colour is written with at least one capital letter, so no lower-case colour is among them. */
  lemma LowerCaseNotFixed(x: string)
    requires NoCapitals(x)
    ensures x !in ColorOptions
  {
    forall i | 0 <= i < |ColorOptions| ensures ColorOptions[i] != x {
      var c := ColorOptions[i];
      assert 'A' <= c[1] <= 'Z' || 'A' <= c[2] <= 'Z' || 'A' <= c[3] <= 'Z' || 'A' <= c[5] <= 'Z';
    }
  }

  /**
   * With the generator's lower-case colours, the picker's whole list has no repeats:
   * the fixed colours are distinct and no extra colour is one of them.
   */
  lemma LowerCaseExtrasNeverRepeat(prev: seq<string>, generated: seq<string>)
    requires NoDups(prev)
    requires forall k :: 0 <= k < |prev| ==> NoCapitals(prev[k])
    requires forall k :: 0 <= k < |generated| ==> NoCapitals(generated[k])
    ensures NoDups(ColorOptions + MoreColors(prev, generated))
  {
    var extra := MoreColors(prev, generated);
    var all := ColorOptions + extra;
    forall k | 0 <= k < |extra| ensures extra[k] !in ColorOptions {
      var x := extra[k];
      assert x in prev || x in generated;
      LowerCaseNotFixed(x);
    }
    forall i, j | 0 <= i < j < |all| ensures all[i] != all[j] {
      if j >= |ColorOptions| && i < |ColorOptions| {
        assert all[j] == extra[j - |ColorOptions|];
      } else if j >= |ColorOptions| {
        assert all[i] == extra[i - |ColorOptions|] && all[j] == extra[j - |ColorOptions|];
      }
    }
  }
}
