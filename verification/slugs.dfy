/** Turning a name into a file name: every run of whitespace becomes a
    single dash. */
module Slugs {
  import opened Strings

  /** No character of `s` is whitespace. */
  predicate NoSpace(s: string) {
    forall i :: 0 <= i < |s| ==> !IsSpace(s[i])
  }

  /** `s.replace(/\s+/g, "-")`: every run of whitespace becomes one dash. */
  function Slug(s: string): string
    decreases |s|
  {
    if s == [] then []
    else if IsSpace(s[0]) then
      var n := LeadingSpaces(s);
      "-" + Slug(s[n..])
    else [s[0]] + Slug(s[1..])
  }

  /** A slug has no whitespace and is no longer than the text. */
  lemma {:induction false} SlugShape(s: string)
    ensures NoSpace(Slug(s)) && |Slug(s)| <= |s|
    decreases |s|
  {
    if s == [] {
    } else if IsSpace(s[0]) {
      var n := LeadingSpaces(s);
      SlugShape(s[n..]);
      var t := Slug(s[n..]);
      assert forall i :: 1 <= i < |t| + 1 ==> ("-" + t)[i] == t[i - 1];
    } else {
      SlugShape(s[1..]);
      var t := Slug(s[1..]);
      assert forall i :: 1 <= i < |t| + 1 ==> ([s[0]] + t)[i] == t[i - 1];
    }
  }

  /** Text without whitespace is its own slug. */
  lemma {:induction false} SlugOfWord(s: string)
    requires NoSpace(s)
    ensures Slug(s) == s
  {
    if s != [] {
      SlugOfWord(s[1..]);
    }
  }

  /** The whitespace run at the start of `a + b` is that of `a` when `a`
      holds more than whitespace. */
  lemma {:induction false} LeadingSpacesPrefix(a: string, b: string)
    requires !Blank(a)
    ensures LeadingSpaces(a + b) == LeadingSpaces(a)
  {
    if IsSpace(a[0]) {
      assert (a + b)[1..] == a[1..] + b;
      LeadingSpacesPrefix(a[1..], b);
    }
  }

  /** The whitespace run `w` in front of `y` is all of the leading run. */
  lemma {:induction false} LeadingSpacesRun(w: string, y: string)
    requires Blank(w)
    requires y == [] || !IsSpace(y[0])
    ensures LeadingSpaces(w + y) == |w|
  {
    if w == [] {
      assert w + y == y;
    } else {
      assert (w + y)[1..] == w[1..] + y;
      LeadingSpacesRun(w[1..], y);
    }
  }

  /** Slug of a run of whitespace followed by text not starting with one. */
  lemma SlugOfRun(w: string, y: string)
    requires w != [] && Blank(w)
    requires y == [] || !IsSpace(y[0])
    ensures Slug(w + y) == "-" + Slug(y)
  {
    LeadingSpacesRun(w, y);
    assert (w + y)[|w|..] == y;
  }

  /** A slug that continues the same way after `x` continues so after
      `[c] + x`, when `c` is not whitespace. */
  lemma SlugCharStep(c: char, x: string, z: string, tail: string)
    requires !IsSpace(c)
    requires Slug(x + z) == Slug(x) + tail
    ensures Slug([c] + x + z) == Slug([c] + x) + tail
  {
    Assoc([c], x, z);
    SlugCons(c, x + z);
    SlugCons(c, x);
    Assoc([c], Slug(x), tail);
  }

  lemma Assoc(a: string, b: string, c: string)
    ensures a + b + c == a + (b + c)
  {
  }

  /** A character other than whitespace is kept in front of the slug. */
  lemma SlugCons(c: char, s: string)
    requires !IsSpace(c)
    ensures Slug([c] + s) == [c] + Slug(s)
  {
    assert ([c] + s)[0] == c && ([c] + s)[1..] == s;
  }

  /** The same after a whitespace run at the start that does not cover the
      whole text. */
  lemma SlugSpaceStep(x: string, z: string, tail: string)
    requires x != [] && IsSpace(x[0]) && !Blank(x)
    requires LeadingSpaces(x) < |x|
    requires Slug(x[LeadingSpaces(x)..] + z) == Slug(x[LeadingSpaces(x)..]) + tail
    ensures Slug(x + z) == Slug(x) + tail
  {
    var n := LeadingSpaces(x);
    LeadingSpacesPrefix(x, z);
    assert (x + z)[0] == x[0];
    assert (x + z)[n..] == x[n..] + z;
    assert Slug(x + z) == "-" + Slug(x[n..] + z);
    assert Slug(x) == "-" + Slug(x[n..]);
    Assoc("-", Slug(x[n..]), tail);
  }

  /** A run of whitespace between two pieces of text becomes a single dash
      between their slugs. */
  lemma {:induction false} SlugJoin(x: string, w: string, y: string)
    requires x == [] || !IsSpace(x[|x| - 1])
    requires w != [] && Blank(w)
    requires y == [] || !IsSpace(y[0])
    ensures Slug(x + (w + y)) == Slug(x) + ("-" + Slug(y))
    decreases |x|
  {
    var z := w + y;
    if x == [] {
      assert x + z == z;
      SlugOfRun(w, y);
    } else if IsSpace(x[0]) {
      assert !Blank(x);
      var n := LeadingSpaces(x);
      var x' := x[n..];
      assert x'[|x'| - 1] == x[|x| - 1];
      SlugJoin(x', w, y);
      SlugSpaceStep(x, z, "-" + Slug(y));
    } else {
      var x' := x[1..];
      assert x' == [] || x'[|x'| - 1] == x[|x| - 1];
      SlugJoin(x', w, y);
      SlugCharStep(x[0], x', z, "-" + Slug(y));
      assert x == [x[0]] + x';
    }
  }

  /** Two words separated by a blank: the text is trimmed, and its slug
      joins the words by a dash. */
  lemma SlugOfTwoWords(a: string, b: string)
    requires a != [] && b != [] && NoSpace(a) && NoSpace(b)
    ensures IsTrimmed(a + " " + b)
    ensures Slug(a + " " + b) == a + "-" + b
  {
    var name := a + " " + b;
    assert name[0] == a[0] && name[|name| - 1] == b[|b| - 1];
    Assoc(a, " ", b);
    SlugJoin(a, " ", b);
    SlugOfWord(a);
    SlugOfWord(b);
    Assoc(a, "-", b);
  }
}
