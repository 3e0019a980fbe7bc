/**
 * Splitting a command line into tokens the way Python's `str.split()` with
 * no argument does: every run of whitespace is one separator, and leading
 * and trailing whitespace produce no empty tokens. Only ASCII whitespace is
 * modelled.
 */
module Tokens {

  /** The ASCII characters Python counts as whitespace: tab, line feed,
      vertical tab, form feed and carriage return (9-13), the four
      information separators (28-31) and space (32). */
  predicate IsSpace(c: char) {
    9 <= c as int <= 13 || 28 <= c as int <= 32
  }

  predicate NoSpace(w: string) {
    forall i :: 0 <= i < |w| ==> !IsSpace(w[i])
  }

  predicate AllSpace(s: string) {
    forall i :: 0 <= i < |s| ==> IsSpace(s[i])
  }

  /** A token as `str.split()` yields it: non-empty and free of whitespace. */
  predicate IsToken(w: string) {
    |w| > 0 && NoSpace(w)
  }

  /** The longest whitespace-free prefix of `s`. */
  function LeadingWord(s: string): (w: string)
    ensures |w| <= |s| && w == s[..|w|]
    ensures |s| > 0 && !IsSpace(s[0]) ==> |w| > 0
    ensures NoSpace(w)
    ensures |w| == |s| || IsSpace(s[|w|])
    ensures NoSpace(s) ==> w == s
    decreases |s|
  {
    if s == [] || IsSpace(s[0]) then [] else [s[0]] + LeadingWord(s[1..])
  }

  /** The whitespace-separated tokens of `s`, in order. */
  function Split(s: string): (r: seq<string>)
    ensures forall i :: 0 <= i < |r| ==> IsToken(r[i])
    decreases |s|
  {
    if s == [] then []
    else if IsSpace(s[0]) then Split(s[1..])
    else
      var w := LeadingWord(s);
      [w] + Split(s[|w|..])
  }

  /** The tokens `ws` written out with one space between neighbours. */
  function Join(ws: seq<string>): string {
    if |ws| == 0 then []
    else if |ws| == 1 then ws[0]
    else ws[0] + " " + Join(ws[1..])
  }

  /** A word stops at the first whitespace, so what follows a whitespace
      character does not affect it. */
  lemma {:induction false} LeadingWordStops(s: string, t: string)
    requires t == [] || IsSpace(t[0])
    ensures LeadingWord(s + t) == LeadingWord(s)
    decreases |s|
  {
    if s == [] {
    } else if IsSpace(s[0]) {
    } else {
      assert (s + t)[1..] == s[1..] + t;
      LeadingWordStops(s[1..], t);
    }
  }

  /** A token followed by whitespace (or nothing) is split off whole. */
  lemma SplitToken(w: string, t: string)
    requires IsToken(w)
    requires t == [] || IsSpace(t[0])
    ensures Split(w + t) == [w] + Split(t)
  {
    LeadingWordStops(w, t);
    assert (w + t)[0] == w[0];
    assert (w + t)[|w|..] == t;
  }

  /** Splitting undoes joining with single spaces. */
  lemma {:induction false} SplitJoin(ws: seq<string>)
    requires forall i :: 0 <= i < |ws| ==> IsToken(ws[i])
    ensures Split(Join(ws)) == ws
  {
    if |ws| == 0 {
    } else if |ws| == 1 {
      SplitToken(ws[0], []);
      assert ws[0] + [] == ws[0];
    } else {
      var rest := Join(ws[1..]);
      SplitJoin(ws[1..]);
      assert (" " + rest)[1..] == rest;
      SplitToken(ws[0], " " + rest);
      assert ws[0] + " " + rest == ws[0] + (" " + rest);
      assert ws == [ws[0]] + ws[1..];
    }
  }

  /** A line yields no token at all exactly when it is all whitespace. */
  lemma {:induction false} SplitEmpty(s: string)
    ensures Split(s) == [] <==> AllSpace(s)
    decreases |s|
  {
    if s != [] && IsSpace(s[0]) {
      SplitEmpty(s[1..]);
      assert AllSpace(s) <==> AllSpace(s[1..]) by {
        assert forall i :: 0 < i < |s| ==> s[i] == s[1..][i - 1];
      }
    }
  }

  /** Leading whitespace produces no token. */
  lemma {:induction false} SplitDropsLeading(p: string, s: string)
    requires AllSpace(p)
    ensures Split(p + s) == Split(s)
    decreases |p|
  {
    if p != [] {
      assert (p + s)[1..] == p[1..] + s;
      SplitDropsLeading(p[1..], s);
    } else {
      assert p + s == s;
    }
  }

  /** Trailing whitespace produces no token. */
  lemma {:induction false} SplitDropsTrailing(s: string, p: string)
    requires AllSpace(p)
    ensures Split(s + p) == Split(s)
    decreases |s|
  {
    if s == [] {
      assert s + p == p;
      SplitEmpty(p);
    } else if IsSpace(s[0]) {
      assert (s + p)[1..] == s[1..] + p;
      SplitDropsTrailing(s[1..], p);
    } else {
      LeadingWordStops(s, p);
      var w := LeadingWord(s);
      assert (s + p)[|w|..] == s[|w|..] + p;
      SplitDropsTrailing(s[|w|..], p);
    }
  }
}
