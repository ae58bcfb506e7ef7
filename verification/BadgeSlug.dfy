/** Badge slugs: how a text becomes a slug, and the search for one that no other badge holds. */
module BadgeSlug {
  import opened Strings
  import opened Wrappers

  const MAX_LENGTH := 140
  const MAX_TRIES := 999

  /* From text to slug. */

  // Lower case of one character. Besides A to Z only the Kelvin sign and the dotted capital I lower to ASCII letters.
  function LowerChar(c: char): string {
    if 'A' <= c <= 'Z' then [c + 'a' - 'A']
    else if c == '\U{212A}' then "k"
    else if c == '\U{0130}' then "i\U{0307}"
    else [c]
  }

  function Lower(s: string): string {
    if s == "" then "" else LowerChar(s[0]) + Lower(s[1..])
  }

  function Unquoted(s: string): string {
    if s == "" then "" else (if s[0] == '\'' || s[0] == '"' then "" else [s[0]]) + Unquoted(s[1..])
  }

  predicate IsPlain(c: char) {
    'a' <= c <= 'z' || '0' <= c <= '9'
  }

  predicate IsOther(c: char) { !IsPlain(c) }

  predicate IsDash(c: char) { c == '-' }

  // Characters of a slug, no two dashes in a row.
  ghost predicate Dashed(s: string) {
    Collapsed(s, IsOther, '-')
  }

  function Dash(s: string): (r: string)
    ensures Dashed(r)
  {
    Collapse(s, IsOther, '-')
  }

  function Take(s: string, n: nat): string {
    if |s| <= n then s else s[..n]
  }

  // The slug before it is cut to length.
  function Uncut(text: string): string {
    DropEnd(DropStart(Dash(Unquoted(Lower(Trim(text)))), IsDash), IsDash)
  }

  function Slugify(text: string): string {
    Take(Uncut(text), MAX_LENGTH)
  }

  ghost predicate IsSlug(s: string) {
    && 1 <= |s| <= MAX_LENGTH && Dashed(s) && IsPlain(s[0])
    && (IsDash(s[|s| - 1]) ==> |s| == MAX_LENGTH)
  }

  lemma SlugifyGivesSlug(text: string)
    ensures Slugify(text) == "" || IsSlug(Slugify(text))
  {
    hide Dash, Unquoted, Lower, Trim, DropStart, DropEnd, Collapsed;
    var dashed := Dash(Unquoted(Lower(Trim(text))));
    var cut := DropStart(dashed, IsDash);
    PartIsCollapsed(dashed, IsOther, '-', |dashed| - |cut|, |dashed|);
    assert dashed[|dashed| - |cut|..|dashed|] == cut;
    var r := DropEnd(cut, IsDash);
    assert r == cut[..|r|] && Slugify(text) == r[..|Slugify(text)|];
    PartIsCollapsed(cut, IsOther, '-', 0, |Slugify(text)|);
    assert cut[0..|Slugify(text)|] == Slugify(text);
    PlainOrDash(Slugify(text));
  }

  lemma PlainOrDash(s: string)
    requires Dashed(s)
    ensures s != "" ==> IsPlain(s[0]) || IsDash(s[0])
    ensures |s| > 1 && IsDash(s[0]) ==> IsPlain(s[1])
  {
  }

  lemma SlugIsSpaceFree(s: string)
    requires Dashed(s)
    ensures SpaceFree(s)
  {
  }

  lemma {:induction false} CharactersKept(s: string)
    requires Dashed(s)
    ensures Unquoted(s) == Lower(s) == s
  {
    hide Collapsed;
    if s != "" {
      PlainOrDash(s);
      assert LowerChar(s[0]) == [s[0]] && s[0] != '\'' && s[0] != '"' && s == [s[0]] + s[1..];
      hide LowerChar, IsPlain, IsDash;
      PartIsCollapsed(s, IsOther, '-', 1, |s|);
      assert s[1..|s|] == s[1..];
      CharactersKept(s[1..]);
    }
  }

  lemma DashedIsKept(s: string)
    requires Dashed(s)
    ensures Dash(Unquoted(Lower(Trim(s)))) == s
  {
    SlugIsSpaceFree(s);
    CharactersKept(s);
    CollapseKeeps(s, IsOther, '-');
  }

  // Small letters, digits and single dashes between them, 140 characters at most.
  predicate IsWellFormed(s: string) {
    && 1 <= |s| <= 140 && s[0] != '-' && s[|s| - 1] != '-'
    && (forall i :: 0 <= i < |s| ==> 'a' <= s[i] <= 'z' || '0' <= s[i] <= '9' || s[i] == '-')
    && (forall i :: 0 < i < |s| ==> s[i - 1] != '-' || s[i] != '-')
  }

  lemma WellFormedIsSlug(s: string)
    requires s != ""
    ensures IsWellFormed(s) <==> IsSlug(s) && !IsDash(s[|s| - 1])
  {
    assert Dashed(s) ==> forall i :: 0 < i < |s| ==> s[i - 1] != '-' || s[i] != '-';
  }

  // The texts that are their own slug: the well-formed ones, which are the slugs that do not end in a dash.
  lemma OwnSlug(s: string)
    requires s != ""
    ensures Slugify(s) == s <==> IsWellFormed(s)
    ensures IsWellFormed(s) <==> IsSlug(s) && !IsDash(s[|s| - 1])
  {
    WellFormedIsSlug(s);
    hide IsWellFormed, Dashed, Dash, Lower, Unquoted, Trim, DropStart, DropEnd;
    SlugifyGivesSlug(s);
    if IsSlug(s) {
      DashedIsKept(s);
      assert DropStart(s, IsDash) == s;
    }
  }

  // The text is long enough to be cut, and the cut falls right behind a dash.
  predicate CutBehindDash(text: string) {
    |Uncut(text)| > MAX_LENGTH && IsDash(Uncut(text)[MAX_LENGTH - 1])
  }

  // A slug is stable unless it was cut there.
  lemma SlugifyAgain(text: string)
    ensures Slugify(Slugify(text)) == Slugify(text) <==> !CutBehindDash(text)
  {
    hide Slugify, IsSlug, Uncut;
    SlugifyGivesSlug(text);
    SlugEnds(text);
    if Slugify(text) == "" {
      NothingIsStable();
    } else {
      OwnSlug(Slugify(text));
    }
  }

  lemma SlugEnds(text: string)
    ensures var slug := Slugify(text);
            CutBehindDash(text) <==> slug != "" && IsDash(slug[|slug| - 1])
  {
    hide DropStart, DropEnd, Dash, Unquoted, Lower, Trim;
  }

  lemma NothingIsStable()
    ensures Slugify("") == ""
  {
  }

  predicate AllPlain(s: string) {
    forall i :: 0 <= i < |s| ==> IsPlain(s[i])
  }

  // The same text in capitals.
  function Raised(s: string): (r: string)
    ensures |r| == |s|
    ensures forall i :: 0 <= i < |s| ==> r[i] == if 'a' <= s[i] <= 'z' then s[i] - 'a' + 'A' else s[i]
  {
    seq(|s|, i requires 0 <= i < |s| => if 'a' <= s[i] <= 'z' then s[i] - 'a' + 'A' else s[i])
  }

  lemma {:induction false} RaisedLowers(s: string)
    requires AllPlain(s)
    ensures Lower(Raised(s)) == s
    decreases |s|
  {
    if s != "" {
      RaisedLowers(s[1..]);
      assert Raised(s)[1..] == Raised(s[1..]);
    }
  }

  lemma CapitalIsNoSpace(s: string)
    requires s != "" && AllPlain(s)
    ensures !IsSpace(Raised(s)[0]) && !IsSpace(Raised(s)[|s| - 1])
  {
    assert IsPlain(s[0]) && IsPlain(s[|s| - 1]);
  }

  // Capitals make no difference.
  lemma CaseIsIgnored(s: string)
    requires AllPlain(s) && s != ""
    ensures Slugify(Raised(s)) == Slugify(s) == Take(s, 140)
  {
    CapitalIsNoSpace(s);
    RaisedLowers(s);
    PlainEnds(s);
    PlainAlones(s);
    hide Lower, Unquoted, Dash, Trim, AllPlain, DropStart, DropEnd, IsSpace, Raised;
    NothingToTrim(Raised(s));
    NothingToTrim(s);
    NothingToDrop(s);
  }

  lemma PlainEnds(s: string)
    requires AllPlain(s) && s != ""
    ensures !IsSpace(s[0]) && !IsSpace(s[|s| - 1]) && !IsDash(s[0]) && !IsDash(s[|s| - 1])
  {
    hide IsSpace, IsDash;
    PlainIsNoSpace(s[0]);
    PlainIsNoSpace(s[|s| - 1]);
  }

  lemma {:induction false} PlainAlones(s: string)
    requires AllPlain(s)
    ensures Lower(s) == s == Unquoted(s) && Dash(s) == s
  {
    hide Lower, Unquoted, Dash, AllPlain;
    PlainPasses(s, "");
    assert s + "" == s;
    OfNothing();
  }

  lemma OfNothing()
    ensures Lower("") == "" == Unquoted("") && Dash("") == ""
  {
  }

  // A quotation mark vanishes and leaves no dash.
  lemma QuoteVanishes(head: string, tail: string, mark: char)
    requires AllPlain(head) && AllPlain(tail) && head != "" && tail != "" && (mark == '\'' || mark == '"')
    ensures Slugify(head + [mark] + tail) == Take(head + tail, 140)
  {
    var text := head + ([mark] + tail);
    assert head + [mark] + tail == text;
    EndsOfJoin(head, [mark] + tail);
    EndsOfJoin(head, tail);
    PlainEnds(head);
    PlainEnds(tail);
    PlainAlones(tail);
    PlainAlones(head);
    QuoteFirst(mark, tail);
    hide Lower, Unquoted, Dash, Trim, AllPlain, DropStart, DropEnd, IsSpace, IsDash;
    PlainPasses(head, [mark] + tail);
    PlainPasses(head, tail);
    NothingToTrim(text);
    NothingToDrop(head + tail);
  }

  lemma {:induction false} QuoteFirst(mark: char, tail: string)
    requires mark == '\'' || mark == '"'
    ensures Lower([mark] + tail) == [mark] + Lower(tail) && Unquoted([mark] + tail) == Unquoted(tail)
  {
    assert ([mark] + tail)[1..] == tail && LowerChar(mark) == [mark];
  }

  // Plain characters pass through unchanged.
  lemma {:induction false} PlainPasses(head: string, tail: string)
    requires AllPlain(head)
    ensures Lower(head + tail) == head + Lower(tail) && Unquoted(head + tail) == head + Unquoted(tail)
    ensures Dash(head + tail) == head + Dash(tail)
  {
    hide Lower, Unquoted, Dash, IsPlain;
    if head == "" {
      assert head + tail == tail;
    } else {
      var rest := head[1..] + tail;
      assert head + tail == [head[0]] + rest && head == [head[0]] + head[1..];
      PlainPasses(head[1..], tail);
      PlainFirst(head[0], rest);
    }
  }

  lemma {:induction false} PlainFirst(c: char, rest: string)
    requires IsPlain(c)
    ensures Lower([c] + rest) == [c] + Lower(rest) && Unquoted([c] + rest) == [c] + Unquoted(rest)
    ensures Dash([c] + rest) == [c] + Dash(rest)
  {
    assert ([c] + rest)[1..] == rest;
  }

  // 139 plain characters, a space and a letter: the slug ends in the dash the space became, and the slug of that
  // slug is a character shorter.
  lemma UnstableExample(head: string)
    requires |head| == MAX_LENGTH - 1 && AllPlain(head)
    ensures Slugify(head + " b") == head + "-" && Slugify(head + "-") == head
  {
    hide Uncut, AllPlain, Take;
    SpaceInside(head);
    DashBehind(head);
    TakeOfExample(head);
  }

  lemma TakeOfExample(head: string)
    requires |head| == MAX_LENGTH - 1
    ensures Take(head + "-b", MAX_LENGTH) == head + "-" && Take(head, MAX_LENGTH) == head
  {
    assert (head + "-b")[..|head| + 1] == head + "-";
  }

  lemma SpaceInside(head: string)
    requires head != "" && AllPlain(head)
    ensures Uncut(head + " b") == head + "-b"
  {
    EndsOfJoin(head, " b");
    EndsOfJoin(head, "-b");
    PlainIsNoSpace(head[0]);
    PlainIsNoSpace('b');
    hide Lower, Unquoted, Dash, Trim, AllPlain, DropStart, DropEnd, IsSpace;
    PlainPasses(head, " b");
    SpaceBecomesDash();
    NothingToTrim(head + " b");
    NothingToDrop(head + "-b");
  }

  lemma DashBehind(head: string)
    requires head != "" && AllPlain(head)
    ensures Uncut(head + "-") == head
  {
    var text := head + "-";
    EndsOfJoin(head, "-");
    PlainIsDashed(head);
    assert IsPlain(head[0]) && IsPlain(head[|head| - 1]);
    hide Dash, Lower, Unquoted, Trim, Dashed, AllPlain;
    DashedIsKept(text);
    assert DropStart(text, IsDash) == text;
    LastDashDrops(head);
  }

  lemma {:induction false} LastDashDrops(head: string)
    requires head != "" && !IsDash(head[0]) && !IsDash(head[|head| - 1])
    ensures DropEnd(head + "-", IsDash) == head
  {
    assert (head + "-")[..|head + "-"| - 1] == head;
  }

  lemma PlainIsDashed(head: string)
    requires AllPlain(head) && head != ""
    ensures Dashed(head + "-")
  {
    assert Dashed(head) && Dashed("-") && IsPlain(head[|head| - 1]);
    hide Collapsed;
    JoinIsCollapsed(head, "-", IsOther, '-');
  }

  lemma EndsOfJoin(head: string, tail: string)
    requires head != "" && tail != "" && AllPlain(head)
    ensures (head + tail)[0] == head[0] && (head + tail)[|head + tail| - 1] == tail[|tail| - 1]
    ensures IsPlain(head[0])
  {
  }

  lemma PlainIsNoSpace(c: char)
    requires IsPlain(c)
    ensures !IsSpace(c) && !IsDash(c)
  {
  }

  lemma NothingToTrim(text: string)
    requires text != "" && !IsSpace(text[0]) && !IsSpace(text[|text| - 1])
    ensures Trim(text) == text
  {
    hide IsSpace;
  }

  lemma {:induction false} NothingToDrop(s: string)
    requires s != "" && !IsDash(s[0]) && !IsDash(s[|s| - 1])
    ensures DropStart(s, IsDash) == DropEnd(s, IsDash) == s
  {
  }

  lemma SpaceBecomesDash()
    ensures Lower(" b") == " b" == Unquoted(" b") && Dash(" b") == "-b"
  {
    var b := ['b'];
    PlainAlone('b');
    SpaceFirst(b);
    hide Lower, Unquoted, Dash;
    assert [' '] + b == " b" && ['-'] + b == "-b";
  }

  lemma {:induction false} SpaceFirst(rest: string)
    requires rest != "" && IsPlain(rest[0])
    ensures Lower([' '] + rest) == [' '] + Lower(rest) && Unquoted([' '] + rest) == [' '] + Unquoted(rest)
    ensures Dash([' '] + rest) == ['-'] + Dash(rest)
  {
    var s := [' '] + rest;
    assert s[1..] == rest && IsOther(' ') && LowerChar(' ') == [' '];
    hide IsPlain, LowerChar, Collapse, Collapsed;
    assert DropStart(s, IsOther) == rest by {
      assert DropStart(rest, IsOther) == rest;
    }
    CollapseRun(s, IsOther, '-');
  }

  lemma PlainAlone(c: char)
    requires IsPlain(c)
    ensures Lower([c]) == [c] == Unquoted([c]) && Dash([c]) == [c]
  {
    PlainFirst(c, "");
    assert [c] + "" == [c];
    assert Collapse("", IsOther, '-') == "";
  }

  // The explicit slug if there is one, else the name's.
  function NormalizeSlug(value: string, fallbackName: string): (slug: Option<string>)
    ensures slug.Some? <==> Slugify(value) != "" || Slugify(fallbackName) != ""
    ensures slug.Some? ==> IsSlug(slug.value)
    ensures Slugify(value) != "" ==> slug == Some(Slugify(value))
    ensures Slugify(value) == "" && slug.Some? ==> slug == Some(Slugify(fallbackName))
  {
    SlugifyGivesSlug(value);
    SlugifyGivesSlug(fallbackName);
    if Slugify(value) != "" then Some(Slugify(value))
    else if Slugify(fallbackName) != "" then Some(Slugify(fallbackName))
    else None
  }

  /* Numbered candidates. */

  function Decimal(n: nat): (digits: string)
    ensures digits != "" && forall i :: 0 <= i < |digits| ==> '0' <= digits[i] <= '9'
  {
    (if n < 10 then "" else Decimal(n / 10)) + [('0' as int + n % 10) as char]
  }

  function Value(digits: string): int {
    if digits == "" then 0 else 10 * Value(digits[..|digits| - 1]) + digits[|digits| - 1] as int - '0' as int
  }

  lemma {:induction false} DecimalReadsBack(n: nat)
    ensures Value(Decimal(n)) == n
  {
    var digits := Decimal(n);
    if n < 10 {
      assert digits[..|digits| - 1] == "";
    } else {
      DecimalReadsBack(n / 10);
      assert digits[..|digits| - 1] == Decimal(n / 10);
    }
  }

  lemma {:induction false} DecimalLength(n: nat)
    requires n < 10000
    ensures |Decimal(n)| <= 4
  {
    assert n / 10 < 1000 && n / 10 / 10 < 100 && n / 10 / 10 / 10 < 10;
    assert |Decimal(n / 10 / 10 / 10)| == 1;
    assert |Decimal(n / 10 / 10)| <= 2;
    assert |Decimal(n / 10)| <= 3;
  }

  function Suffix(tries: nat): string {
    "-" + Decimal(tries + 1)
  }

  function Stem(base: string, tries: nat): string {
    var room := MAX_LENGTH - |Suffix(tries)|;
    DropEnd(Take(base, if room < 1 then 1 else room), IsDash)
  }

  // The slug looked up after so many failed tries.
  function Candidate(base: string, tries: nat): string {
    if tries == 0 then base
    else (if Stem(base, tries) == "" then "badge" else Stem(base, tries)) + Suffix(tries)
  }

  lemma SuffixIsDashed(tries: nat)
    ensures Dashed(Suffix(tries)) && !IsDash(Suffix(tries)[|Suffix(tries)| - 1])
  {
    var suffix, digits := Suffix(tries), Decimal(tries + 1);
    assert forall i :: 0 < i < |suffix| ==> suffix[i] == digits[i - 1];
  }

  lemma CandidateIsSlug(base: string, tries: nat)
    requires IsSlug(base) && tries < MAX_TRIES
    ensures IsSlug(Candidate(base, tries))
    ensures tries > 0 ==> Stem(base, tries) != "" && Stem(base, tries) <= base
  {
    if tries > 0 {
      hide Collapsed, Decimal;
      DecimalLength(tries + 1);
      var stem := Stem(base, tries);
      assert stem != "";
      PartIsCollapsed(base, IsOther, '-', 0, |stem|);
      assert base[0..|stem|] == stem;
      SuffixIsDashed(tries);
      JoinIsCollapsed(stem, Suffix(tries), IsOther, '-');
    }
  }

  // A numbered candidate is a beginning of the base, all of it where it is short enough, a dash, and one more than the
  // number of failed tries.
  lemma CandidateIsNumbered(base: string, tries: nat)
    requires IsSlug(base) && 0 < tries < MAX_TRIES
    ensures exists stem, digits :: Candidate(base, tries) == stem + ("-" + digits) && Value(digits) == tries + 1
                                   && stem <= base && (|base| <= 135 ==> stem == base)
  {
    hide Dashed, Decimal, Value;
    CandidateIsSlug(base, tries);
    DecimalReadsBack(tries + 1);
    DecimalLength(tries + 1);
    var stem, digits := Stem(base, tries), Decimal(tries + 1);
    if |base| <= 135 {
      assert DropEnd(base, IsDash) == base;
    }
    assert Candidate(base, tries) == stem + ("-" + digits);
  }

  predicate DashFree(s: string) {
    forall i :: 0 <= i < |s| ==> s[i] != '-'
  }

  // What follows the last dash of a text is determined by it.
  lemma AfterDash(x: string, a: string, y: string, b: string)
    requires x + ("-" + a) == y + ("-" + b) && DashFree(a) && DashFree(b)
    ensures a == b
  {
    var s := x + ("-" + a);
    assert s[|x|] == '-' == s[|y|];
    assert |x| == |y|;
    assert s[|x| + 1..] == a && (y + ("-" + b))[|y| + 1..] == b;
  }

  lemma CandidatesDiffer(base: string, i: nat, j: nat)
    requires IsSlug(base) && 0 < i < MAX_TRIES && 0 < j < MAX_TRIES && Candidate(base, i) == Candidate(base, j)
    ensures i == j
  {
    hide Stem, Decimal, Value, IsSlug;
    CandidateIsSlug(base, i);
    CandidateIsSlug(base, j);
    AfterDash(Stem(base, i), Decimal(i + 1), Stem(base, j), Decimal(j + 1));
    DecimalReadsBack(i + 1);
    DecimalReadsBack(j + 1);
  }

  /* The search. */

  type BadgeId = string

  datatype Outcome = Found(slug: string) | NoSlug | NotUnique

  // The first candidates are held by badges other than the one being saved.
  ghost predicate Crowded(slugs: map<string, BadgeId>, base: string, current: Option<BadgeId>, tries: nat) {
    forall i :: 0 <= i < tries ==>
      Candidate(base, i) in slugs && current != Some(slugs[Candidate(base, i)])
  }

  lemma FirstCandidate(base: string)
    ensures Candidate(base, 0) == base
  {
  }

  lemma NextCandidate(base: string, tries: nat)
    requires tries > 0
    ensures var stem := Stem(base, tries);
            Candidate(base, tries) == (if stem == "" then "badge" else stem) + Suffix(tries)
  {
  }

  method BuildUniqueBadgeSlug(
      slugs: map<string, BadgeId>, value: string, fallbackName: string, current: Option<BadgeId>)
    returns (outcome: Outcome)
    ensures var base := NormalizeSlug(value, fallbackName);
            match outcome
            case NoSlug => base == None
            case NotUnique => base.Some? && Crowded(slugs, base.value, current, 999)
            case Found(slug) =>
              && base.Some? && IsSlug(slug) && (slug in slugs ==> current == Some(slugs[slug]))
              && exists tries: nat :: tries < 999 && slug == Candidate(base.value, tries)
                                      && Crowded(slugs, base.value, current, tries)
  {
    hide Collapsed, Decimal, Slugify, DropEnd, Candidate, IsSlug;
    var normalized := NormalizeSlug(value, fallbackName);
    if normalized.None? {
      return NoSlug;
    }
    var base := normalized.value;
    var candidate := base;
    FirstCandidate(base);
    for suffix := 1 to MAX_TRIES + 1
      invariant candidate == Candidate(base, suffix - 1) && Crowded(slugs, base, current, suffix - 1)
    {
      CandidateIsSlug(base, suffix - 1);
      if candidate !in slugs || Some(slugs[candidate]) == current {
        return Found(candidate);
      }
      var suffixText := "-" + Decimal(suffix + 1);
      var room := MAX_LENGTH - |suffixText|;
      var trimmed := DropEnd(Take(base, if room < 1 then 1 else room), IsDash);
      NextCandidate(base, suffix);
      candidate := (if trimmed == "" then "badge" else trimmed) + suffixText;
    }
    return NotUnique;
  }

  /* Giving up. */

  function Numbered(base: string, n: nat): set<string> {
    set i | 1 <= i < n :: Candidate(base, i)
  }

  lemma {:induction false} NumberedCount(base: string, n: nat)
    requires IsSlug(base) && 1 <= n <= MAX_TRIES
    ensures |Numbered(base, n)| == n - 1
  {
    hide IsSlug, Candidate;
    if n == 1 {
      assert Numbered(base, n) == {};
    } else {
      NumberedCount(base, n - 1);
      var last := Candidate(base, n - 1);
      assert last !in Numbered(base, n - 1) by {
        forall i | 1 <= i < n - 1 ensures Candidate(base, i) != last {
          if Candidate(base, i) == last {
            CandidatesDiffer(base, i, n - 1);
          }
        }
      }
      assert Numbered(base, n) == Numbered(base, n - 1) + {last};
    }
  }

  // Held by badges other than the one being saved.
  function HeldByOthers(slugs: map<string, BadgeId>, current: Option<BadgeId>): set<string> {
    set slug | slug in slugs && current != Some(slugs[slug])
  }

  // The search gives up only when other badges hold at least 998 slugs of its family.
  lemma GivesUpOnlyWhenCrowded(slugs: map<string, BadgeId>, base: string, current: Option<BadgeId>)
    requires IsSlug(base) && Crowded(slugs, base, current, MAX_TRIES)
    ensures |HeldByOthers(slugs, current)| >= 998
    ensures Numbered(base, MAX_TRIES) + {base} <= HeldByOthers(slugs, current)
  {
    NumberedCount(base, MAX_TRIES);
    assert Candidate(base, 0) == base;
    SubsetCount(Numbered(base, MAX_TRIES), HeldByOthers(slugs, current));
  }

  lemma {:induction false} SubsetCount<T>(a: set<T>, b: set<T>)
    requires a <= b
    ensures |a| <= |b|
  {
    assert b == a + (b - a);
  }
}
