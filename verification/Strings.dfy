/** The string operations shared by the request guards, the path normalisers and the slug builder. */
module Strings {

  // What `trim` removes: white space and line terminators.
  predicate IsSpace(c: char) {
    || '\t' <= c <= '\r' || c == ' ' || c == '\U{00A0}' || c == '\U{1680}' || '\U{2000}' <= c <= '\U{200A}'
    || c == '\U{2028}' || c == '\U{2029}' || c == '\U{202F}' || c == '\U{205F}' || c == '\U{3000}' || c == '\U{FEFF}'
  }

  // White space and line terminators of ECMA-262, one by one.
  lemma SpacesAre(c: char)
    ensures IsSpace(c)
        <==> c in {'\t', '\n', '\U{000B}', '\U{000C}', '\r', ' ', '\U{00A0}', '\U{1680}', '\U{2000}', '\U{2001}',
                   '\U{2002}', '\U{2003}', '\U{2004}', '\U{2005}', '\U{2006}', '\U{2007}', '\U{2008}', '\U{2009}',
                   '\U{200A}', '\U{2028}', '\U{2029}', '\U{202F}', '\U{205F}', '\U{3000}', '\U{FEFF}'}
  {
  }

  predicate SpaceFree(s: string) {
    forall c :: c in s ==> !IsSpace(c)
  }

  function DropStart(s: string, drop: char -> bool): (r: string)
    ensures |r| <= |s| && r == s[|s| - |r|..]
    ensures r != "" ==> !drop(r[0])
    ensures forall i :: 0 <= i < |s| - |r| ==> drop(s[i])
  {
    if s != "" && drop(s[0]) then DropStart(s[1..], drop) else s
  }

  function DropEnd(s: string, drop: char -> bool): (r: string)
    ensures |r| <= |s| && r == s[..|r|]
    ensures r != "" ==> !drop(r[|r| - 1])
    ensures forall i :: |r| <= i < |s| ==> drop(s[i])
  {
    if s != "" && drop(s[|s| - 1]) then DropEnd(s[..|s| - 1], drop) else s
  }

  function Trim(s: string): (r: string)
    ensures |r| <= |s| && forall c :: c in r ==> c in s
    ensures SpaceFree(s) ==> r == s
  {
    DropsKeepSpaceFree(s);
    DropEnd(DropStart(s, IsSpace), IsSpace)
  }

  // Trimming takes white space off both ends, all of it and nothing else.
  lemma TrimTakesTheEnds(s: string) returns (from: nat, to: nat)
    ensures from <= to <= |s| && Trim(s) == s[from..to]
    ensures forall i :: 0 <= i < from || to <= i < |s| ==> IsSpace(s[i])
    ensures from < to ==> !IsSpace(s[from]) && !IsSpace(s[to - 1])
  {
    hide IsSpace, DropStart, DropEnd;
    var tail := DropStart(s, IsSpace);
    var r := DropEnd(tail, IsSpace);
    assert Trim(s) == r;
    hide Trim;
    from := |s| - |tail|;
    to := from + |r|;
    SliceOfTail(s, from, |r|);
    SpacesBehind(s, tail, r);
  }

  lemma SpacesBehind(s: string, tail: string, r: string)
    requires |tail| <= |s| && tail == s[|s| - |tail|..] && |r| <= |tail| && r == tail[..|r|]
    requires forall i :: |r| <= i < |tail| ==> IsSpace(tail[i])
    ensures forall i :: |s| - |tail| + |r| <= i < |s| ==> IsSpace(s[i])
    ensures r != "" ==> r[0] == tail[0] == s[|s| - |tail|] && r[|r| - 1] == s[|s| - |tail| + |r| - 1]
  {
    hide IsSpace;
    forall i | |s| - |tail| + |r| <= i < |s| ensures IsSpace(s[i]) {
      assert s[i] == tail[i - (|s| - |tail|)];
    }
  }

  lemma SliceOfTail(s: string, from: nat, n: nat)
    requires from + n <= |s|
    ensures s[from..][..n] == s[from..from + n]
  {
  }

  lemma {:induction false} DropsKeepSpaceFree(s: string)
    ensures var r := DropEnd(DropStart(s, IsSpace), IsSpace);
            (forall c :: c in r ==> c in s) && (SpaceFree(s) ==> r == s)
  {
    hide IsSpace, DropStart, DropEnd;
    var tail := DropStart(s, IsSpace);
    var r := DropEnd(tail, IsSpace);
    PartHolds(s, |s| - |tail|, |s|);
    PartHolds(tail, 0, |r|);
    assert s[|s| - |tail|..|s|] == tail && tail[0..|r|] == r;
    hide SpaceFree;
    if SpaceFree(s) {
      SpaceFreeEnds(s);
    }
  }

  lemma PartHolds(s: string, from: nat, to: nat)
    requires from <= to <= |s|
    ensures forall c :: c in s[from..to] ==> c in s
  {
    forall c | c in s[from..to] ensures c in s {
      var i :| 0 <= i < to - from && s[from..to][i] == c;
      assert s[from + i] == c;
    }
  }

  lemma SpaceFreeEnds(s: string)
    requires SpaceFree(s)
    ensures s != "" ==> !IsSpace(s[0]) && !IsSpace(s[|s| - 1])
  {
    hide IsSpace;
  }

  // The part of s before the first c.
  function Before(s: string, c: char): (r: string)
    ensures r <= s && c !in r
    ensures |r| < |s| ==> s[|r|] == c
  {
    if s == "" || s[0] == c then "" else [s[0]] + Before(s[1..], c)
  }

  // No character of a run but `mark`, and no two of those in a row.
  ghost predicate Collapsed(s: string, run: char -> bool, mark: char) {
    && (forall i :: 0 <= i < |s| && run(s[i]) ==> s[i] == mark)
    && (forall i, j :: 0 <= i < j < |s| && j == i + 1 ==> !(s[i] == mark && s[j] == mark))
  }

  // Every run of such characters becomes one `mark`.
  function Collapse(s: string, run: char -> bool, mark: char): (r: string)
    requires run(mark)
    ensures Collapsed(r, run, mark)
    ensures s != "" ==> r != "" && r[0] == if run(s[0]) then mark else s[0]
  {
    if s == "" then ""
    else if run(s[0]) then [mark] + Collapse(DropStart(s, run), run, mark)
    else [s[0]] + Collapse(s[1..], run, mark)
  }

  lemma {:induction false} CollapseRun(s: string, run: char -> bool, mark: char)
    requires run(mark) && s != "" && run(s[0])
    ensures Collapse(s, run, mark) == [mark] + Collapse(DropStart(s, run), run, mark)
  {
  }

  lemma PartIsCollapsed(s: string, run: char -> bool, mark: char, from: nat, to: nat)
    requires Collapsed(s, run, mark) && from <= to <= |s|
    ensures Collapsed(s[from..to], run, mark)
  {
    var part := s[from..to];
    assert forall i :: 0 <= i < |part| ==> part[i] == s[from + i];
  }

  lemma JoinIsCollapsed(a: string, b: string, run: char -> bool, mark: char)
    requires Collapsed(a, run, mark) && Collapsed(b, run, mark)
    requires a != "" && b != "" ==> a[|a| - 1] != mark || b[0] != mark
    ensures Collapsed(a + b, run, mark)
  {
    var s := a + b;
    assert forall i :: 0 <= i < |s| ==> s[i] == if i < |a| then a[i] else b[i - |a|];
  }

  lemma {:induction false} CollapseKeeps(s: string, run: char -> bool, mark: char)
    requires run(mark) && Collapsed(s, run, mark)
    ensures Collapse(s, run, mark) == s
  {
    if s != "" {
      PartIsCollapsed(s, run, mark, 1, |s|);
      assert s[1..|s|] == s[1..];
      CollapseKeeps(s[1..], run, mark);
      if run(s[0]) {
        assert |s| > 1 ==> !run(s[1]);
        hide Collapsed;
        assert DropStart(s[1..], run) == s[1..];
      }
    }
  }
}
