/**
 * Go's `strings.Split` and `strings.Join` for a one-character separator, the two
 * operations the catalog uses to read and write the category list and that the
 * date parser uses to cut a publish date into fields.
 */
module GoStrings {

  /** `strings.Join(xs, sep)`: the elements with one separator between neighbours. */
  function Join(xs: seq<string>, sep: char): string
  {
    if |xs| == 0 then ""
    else if |xs| == 1 then xs[0]
    else xs[0] + [sep] + Join(xs[1..], sep)
  }

  /**
   * `strings.Split(s, sep)`: the maximal separator-free pieces of `s`. There is always
   * at least one piece (splitting "" gives [""]), and joining the pieces gives `s` back.
   */
  function Split(s: string, sep: char): (r: seq<string>)
    ensures |r| >= 1
    ensures forall i | 0 <= i < |r| :: sep !in r[i]
    ensures Join(r, sep) == s
  {
    if s == [] then [""]
    else
      var rest := Split(s[1..], sep);
      if s[0] == sep then
        assert ([""] + rest)[1..] == rest;
        [""] + rest
      else
        var r := [[s[0]] + rest[0]] + rest[1..];
        assert r[1..] == rest[1..];
        assert s == [s[0]] + s[1..];
        r
  }

  lemma JoinCons(x: string, xs: seq<string>, sep: char)
    requires |xs| >= 1
    ensures Join([x] + xs, sep) == x + [sep] + Join(xs, sep)
  {
    assert ([x] + xs)[1..] == xs;
  }

  lemma JoinThree(a: string, b: string, c: string, sep: char)
    ensures Join([a, b, c], sep) == a + [sep] + (b + [sep] + c)
  {
    assert [a, b, c][1..] == [b, c] && [b, c][1..] == [c];
    assert Join([c], sep) == c;
    assert Join([b, c], sep) == b + [sep] + c;
  }

  /** Splitting a separator-free prefix followed by `b` extends the first piece of `b`'s split. */
  lemma {:induction false} SplitSeparatorFree(a: string, b: string, sep: char)
    requires sep !in a
    ensures Split(a + b, sep) == [a + Split(b, sep)[0]] + Split(b, sep)[1..]
  {
    if a != [] {
      var r := Split(b, sep);
      assert (a + b)[0] == a[0] != sep;
      assert (a + b)[1..] == a[1..] + b;
      SplitSeparatorFree(a[1..], b, sep);
      var rest := Split(a[1..] + b, sep);
      assert rest == [a[1..] + r[0]] + r[1..];
      assert Split(a + b, sep) == [[a[0]] + rest[0]] + rest[1..];
      assert [a[0]] + (a[1..] + r[0]) == a + r[0];
    } else {
      var r := Split(b, sep);
      assert a + b == b && a + r[0] == r[0];
      assert r == [r[0]] + r[1..];
    }
  }

  /** A leading separator opens an empty first piece. */
  lemma SplitLeadingSeparator(tail: string, sep: char)
    ensures Split([sep] + tail, sep) == [""] + Split(tail, sep)
  {
    assert ([sep] + tail)[1..] == tail;
  }

  /** The round trip the catalog relies on: splitting a join gives the list back when it is
      non-empty and no element contains the separator. */
  lemma {:induction false} SplitJoin(xs: seq<string>, sep: char)
    requires |xs| >= 1
    requires forall i | 0 <= i < |xs| :: sep !in xs[i]
    ensures Split(Join(xs, sep), sep) == xs
  {
    if |xs| == 1 {
      SplitSeparatorFree(xs[0], "", sep);
      assert xs[0] + "" == xs[0];
    } else {
      var tail := Join(xs[1..], sep);
      var after := [sep] + tail;
      var pieces := Split(after, sep);
      assert pieces == [""] + xs[1..] by {
        SplitJoin(xs[1..], sep);
        SplitLeadingSeparator(tail, sep);
      }
      assert Join(xs, sep) == xs[0] + after;
      assert Split(xs[0] + after, sep) == [xs[0] + pieces[0]] + pieces[1..] by {
        SplitSeparatorFree(xs[0], after, sep);
      }
      assert [xs[0] + pieces[0]] + pieces[1..] == xs by {
        assert xs[0] + "" == xs[0];
        assert pieces[1..] == xs[1..];
      }
    }
  }

  /** An empty list is written as "" and reads back as a list holding one empty string. */
  lemma EmptyListReadsBackAsOneEmptyPiece(sep: char)
    ensures Split(Join([], sep), sep) == [""]
  {
  }

  /** Splitting is injective: two strings with the same pieces are equal. */
  lemma SplitInjective(s: string, t: string, sep: char)
    requires Split(s, sep) == Split(t, sep)
    ensures s == t
  {
  }
}
