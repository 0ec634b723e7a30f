/** Filtering and mapping of text, and the ASCII cases. */
module Strings {

  function Filter(keep: char -> bool, s: string): string {
    if s == "" then "" else (if keep(s[0]) then [s[0]] else "") + Filter(keep, s[1..])
  }

  function Map(f: char -> char, s: string): (t: string)
    ensures |t| == |s|
  {
    if s == "" then "" else [f(s[0])] + Map(f, s[1..])
  }

  lemma FilterFirst(keep: char -> bool, s: string)
    ensures s != "" ==> Filter(keep, s) == (if keep(s[0]) then [s[0]] else "") + Filter(keep, s[1..])
    ensures Filter(keep, "") == ""
  {
  }

  lemma {:induction false} FilterAppend(keep: char -> bool, s: string, t: string)
    ensures Filter(keep, s + t) == Filter(keep, s) + Filter(keep, t)
  {
    hide Filter;
    FilterFirst(keep, s);
    if s == "" {
      assert s + t == t;
    } else {
      FilterAppend(keep, s[1..], t);
      FilterFirst(keep, s + t);
      assert (s + t)[1..] == s[1..] + t;
    }
  }

  lemma {:induction false} MapAppend(f: char -> char, s: string, t: string)
    ensures Map(f, s + t) == Map(f, s) + Map(f, t)
  {
    if s == "" {
      assert s + t == t;
    } else {
      assert (s + t)[1..] == s[1..] + t;
      MapAppend(f, s[1..], t);
    }
  }

  lemma {:induction false} MapAt(f: char -> char, s: string, i: nat)
    requires i < |s|
    ensures Map(f, s)[i] == f(s[i])
  {
    if i > 0 {
      MapAt(f, s[1..], i - 1);
    }
  }

  /** A filter that keeps everything. */
  lemma {:induction false} FilterAll(keep: char -> bool, s: string)
    requires forall c :: c in s ==> keep(c)
    ensures Filter(keep, s) == s
  {
    if s != "" {
      FilterAll(keep, s[1..]);
      assert s == [s[0]] + s[1..];
    }
  }

  /** A filter that keeps nothing. */
  lemma {:induction false} FilterNone(keep: char -> bool, s: string)
    requires forall c :: c in s ==> !keep(c)
    ensures Filter(keep, s) == ""
  {
    if s != "" {
      FilterNone(keep, s[1..]);
    }
  }

  lemma {:induction false} FilterOnlyKept(keep: char -> bool, s: string)
    ensures forall c :: c in Filter(keep, s) <==> c in s && keep(c)
  {
    if s != "" {
      FilterOnlyKept(keep, s[1..]);
      assert s == [s[0]] + s[1..];
    }
  }

  lemma {:induction false} MapIn(f: char -> char, s: string)
    ensures forall d :: d in Map(f, s) <==> exists c :: c in s && f(c) == d
  {
    if s != "" {
      MapIn(f, s[1..]);
      assert s == [s[0]] + s[1..];
    }
  }

  /** `toUpperCase` on ASCII. */
  function Upper(c: char): char {
    if 'a' <= c <= 'z' then (c as int - 32) as char else c
  }

  /** `toLowerCase` on ASCII. */
  function Lower(c: char): char {
    if 'A' <= c <= 'Z' then (c as int + 32) as char else c
  }

  /** ASCII white space. */
  predicate IsSpace(c: char) { c == ' ' || 9 as char <= c <= 13 as char }

  predicate AllSpace(s: string) { forall c :: c in s ==> IsSpace(c) }

  function TrimLeft(s: string): (t: string)
    ensures t == "" || !IsSpace(t[0])
  {
    if s != "" && IsSpace(s[0]) then TrimLeft(s[1..]) else s
  }

  function TrimRight(s: string): (t: string)
    ensures t == "" || !IsSpace(t[|t| - 1])
  {
    if s != "" && IsSpace(s[|s| - 1]) then TrimRight(s[..|s| - 1]) else s
  }

  /** White space at both ends cut off. */
  function Trim(s: string): string { TrimRight(TrimLeft(s)) }

  /** What trimming cuts off is white space. */
  lemma {:induction false} TrimLeftCuts(s: string) returns (cut: string)
    ensures s == cut + TrimLeft(s) && AllSpace(cut)
  {
    cut := "";
    if s != "" && IsSpace(s[0]) {
      var rest := TrimLeftCuts(s[1..]);
      cut := [s[0]] + rest;
    }
  }

  lemma {:induction false} TrimRightCuts(s: string) returns (cut: string)
    ensures s == TrimRight(s) + cut && AllSpace(cut)
  {
    cut := "";
    if s != "" && IsSpace(s[|s| - 1]) {
      var rest := TrimRightCuts(s[..|s| - 1]);
      cut := rest + [s[|s| - 1]];
      assert s == s[..|s| - 1] + [s[|s| - 1]];
    }
  }

  /** Trimming takes the white space around a text that neither starts nor ends with any, and
      nothing else. */
  lemma TrimAround(before: string, s: string, after: string)
    requires AllSpace(before) && AllSpace(after) && s != "" && !IsSpace(s[0]) && !IsSpace(s[|s| - 1])
    ensures Trim(before + s + after) == s
  {
    TrimLeftAll(before, s + after);
    assert before + s + after == before + (s + after);
    TrimRightAll(s, after);
  }

  lemma {:induction false} TrimLeftAll(before: string, s: string)
    requires AllSpace(before) && s != "" && !IsSpace(s[0])
    ensures TrimLeft(before + s) == s
  {
    if before == "" {
      assert before + s == s;
    } else {
      assert (before + s)[1..] == before[1..] + s;
      TrimLeftAll(before[1..], s);
    }
  }

  lemma {:induction false} TrimRightAll(s: string, after: string)
    requires AllSpace(after) && s != "" && !IsSpace(s[|s| - 1])
    ensures TrimRight(s + after) == s
    decreases |after|
  {
    if after == "" {
      assert s + after == s;
    } else {
      assert (s + after)[..|s + after| - 1] == s + after[..|after| - 1];
      TrimRightAll(s, after[..|after| - 1]);
    }
  }

  /** Trimming leaves nothing exactly of white space alone. */
  lemma TrimmedAway(s: string)
    ensures Trim(s) == "" <==> AllSpace(s)
  {
    hide IsSpace;
    var before := TrimLeftCuts(s);
    var after := TrimRightCuts(TrimLeft(s));
    var t := TrimLeft(s);
    assert s == before + Trim(s) + after;
    assert t != "" ==> t[0] in s;
  }

  /** The letters in order become the capitals in order, and nothing else changes. */
  lemma CasePairs(c: char)
    ensures 'a' <= c <= 'z' ==> 'A' <= Upper(c) <= 'Z' && Upper(c) as int - 'A' as int == c as int - 'a' as int
    ensures 'A' <= c <= 'Z' ==> 'a' <= Lower(c) <= 'z' && Lower(c) as int - 'a' as int == c as int - 'A' as int
    ensures !('a' <= c <= 'z') ==> Upper(c) == c
    ensures !('A' <= c <= 'Z') ==> Lower(c) == c
  {
  }

  /** The six white space characters of ASCII. */
  lemma SpacesAre(c: char)
    ensures IsSpace(c) <==> c in " \t\n\r" || c as int == 11 || c as int == 12
  {
  }
}
