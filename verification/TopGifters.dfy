/** The contribution summary of a battle: totals per sender, the three top gifters, and the order of the sides. */
module TopGifters {
  import opened StableSort
  import opened Wrappers

  datatype Contribution = Contribution(senderUserId: Option<string>, diamondValue: Option<int>)

  function Diamonds(c: Contribution): int {
    if c.diamondValue.Some? then c.diamondValue.value else 0
  }

  // A missing and an empty sender both count as none.
  predicate HasSender(c: Contribution) {
    c.senderUserId.Some? && c.senderUserId.value != ""
  }

  predicate From(c: Contribution, sender: string) {
    HasSender(c) && c.senderUserId.value == sender
  }

  datatype Gifter = Gifter(senderUserId: string, totalDiamondValue: int, giftCount: nat)

  /* The entries, in the order in which their senders first appear. */

  function IndexOf(gifters: seq<Gifter>, sender: string): (i: nat)
    ensures i <= |gifters|
    ensures i < |gifters| ==> gifters[i].senderUserId == sender
    ensures forall j :: 0 <= j < i ==> gifters[j].senderUserId != sender
  {
    if gifters == [] || gifters[0].senderUserId == sender then 0 else 1 + IndexOf(gifters[1..], sender)
  }

  function Added(gifters: seq<Gifter>, c: Contribution): seq<Gifter>
    requires HasSender(c)
  {
    var sender := c.senderUserId.value;
    var i := IndexOf(gifters, sender);
    if i < |gifters| then
      gifters[i := Gifter(sender, gifters[i].totalDiamondValue + Diamonds(c), gifters[i].giftCount + 1)]
    else gifters + [Gifter(sender, Diamonds(c), 1)]
  }

  function Tally(contributions: seq<Contribution>): seq<Gifter> {
    if contributions == [] then []
    else
      var earlier, last := Tally(contributions[..|contributions| - 1]), contributions[|contributions| - 1];
      if HasSender(last) then Added(earlier, last) else earlier
  }

  predicate Beats(a: Gifter, b: Gifter) {
    || a.totalDiamondValue > b.totalDiamondValue
    || (a.totalDiamondValue == b.totalDiamondValue && a.giftCount > b.giftCount)
  }

  const PLACES := 3

  function Top(gifters: seq<Gifter>): seq<Gifter> {
    var sorted := Sort(gifters, Beats);
    if |sorted| <= PLACES then sorted else sorted[..PLACES]
  }

  /* What each entry holds, said sender by sender. */

  function Sent(contributions: seq<Contribution>, sender: string): int {
    if contributions == [] then 0
    else
      var last := contributions[|contributions| - 1];
      Sent(contributions[..|contributions| - 1], sender)
      + if last.senderUserId == Some(sender) && sender != "" && last.diamondValue.Some? then last.diamondValue.value
        else 0
  }

  function Gifts(contributions: seq<Contribution>, sender: string): nat {
    if contributions == [] then 0
    else
      Gifts(contributions[..|contributions| - 1], sender)
      + if contributions[|contributions| - 1].senderUserId == Some(sender) && sender != "" then 1 else 0
  }

  ghost predicate Senders(gifters: seq<Gifter>) {
    forall i, j :: 0 <= i < j < |gifters| ==> gifters[i].senderUserId != gifters[j].senderUserId
  }

  lemma {:induction false} AddedHolds(gifters: seq<Gifter>, c: Contribution, sender: string)
    requires Senders(gifters) && HasSender(c)
    ensures var added := Added(gifters, c);
            var i := IndexOf(gifters, sender);
            && Senders(added)
            && if From(c, sender) then
                 var current := if i < |gifters| then gifters[i] else Gifter(sender, 0, 0);
                 && IndexOf(added, sender) == i < |added|
                 && added[i] == Gifter(sender, current.totalDiamondValue + Diamonds(c), current.giftCount + 1)
               else if i < |gifters| then IndexOf(added, sender) == i && added[i] == gifters[i]
               else IndexOf(added, sender) == |added|
  {
    var added, i, k := Added(gifters, c), IndexOf(gifters, c.senderUserId.value), IndexOf(gifters, sender);
    assert forall j :: 0 <= j < |gifters| ==> added[j].senderUserId == gifters[j].senderUserId;
    assert |added| > |gifters| ==> added[|gifters|].senderUserId == c.senderUserId.value;
    if IndexOf(added, sender) < |added| {
      assert added[IndexOf(added, sender)].senderUserId == sender;
    }
    if k < |gifters| {
      assert added[k].senderUserId == sender;
    }
  }

  // One entry for every sender that contributed, holding what it sent and how often.
  lemma {:induction false} TallyHolds(contributions: seq<Contribution>, sender: string)
    ensures Senders(Tally(contributions))
    ensures var gifters := Tally(contributions);
            var i := IndexOf(gifters, sender);
            if Gifts(contributions, sender) == 0 then i == |gifters| && Sent(contributions, sender) == 0
            else i < |gifters|
                 && gifters[i] == Gifter(sender, Sent(contributions, sender), Gifts(contributions, sender))
  {
    if contributions != [] {
      var earlier, last := contributions[..|contributions| - 1], contributions[|contributions| - 1];
      TallyHolds(earlier, sender);
      hide Senders, IndexOf, Added;
      if HasSender(last) {
        AddedHolds(Tally(earlier), last, sender);
      }
    }
  }

  // So the entries are exactly those of the senders that contributed.
  lemma {:induction false} TallyIsExact(contributions: seq<Contribution>, gifter: Gifter)
    ensures gifter in Tally(contributions)
        <==> gifter.giftCount > 0
             && gifter.totalDiamondValue == Sent(contributions, gifter.senderUserId)
             && gifter.giftCount == Gifts(contributions, gifter.senderUserId)
  {
    var gifters := Tally(contributions);
    TallyHolds(contributions, gifter.senderUserId);
    if gifter in gifters {
      var i :| 0 <= i < |gifters| && gifters[i] == gifter;
      assert IndexOf(gifters, gifter.senderUserId) == i;
    }
  }

  /* Sums. */

  function TotalOf(gifters: seq<Gifter>): int {
    if gifters == [] then 0 else TotalOf(gifters[..|gifters| - 1]) + gifters[|gifters| - 1].totalDiamondValue
  }

  function CountOf(gifters: seq<Gifter>): nat {
    if gifters == [] then 0 else CountOf(gifters[..|gifters| - 1]) + gifters[|gifters| - 1].giftCount
  }

  // The summary's total over all contributions.
  function Total(contributions: seq<Contribution>): int {
    if contributions == [] then 0
    else Total(contributions[..|contributions| - 1]) + Diamonds(contributions[|contributions| - 1])
  }

  function Named(contributions: seq<Contribution>): seq<Contribution> {
    if contributions == [] then []
    else
      Named(contributions[..|contributions| - 1])
      + if HasSender(contributions[|contributions| - 1]) then [contributions[|contributions| - 1]] else []
  }

  lemma {:induction false} UpdateTotals(gifters: seq<Gifter>, i: nat, gifter: Gifter)
    requires i < |gifters|
    ensures TotalOf(gifters[i := gifter]) == TotalOf(gifters) + gifter.totalDiamondValue - gifters[i].totalDiamondValue
    ensures CountOf(gifters[i := gifter]) == CountOf(gifters) + gifter.giftCount - gifters[i].giftCount
  {
    var after, last := gifters[i := gifter], |gifters| - 1;
    if i == last {
      assert after[..last] == gifters[..last];
    } else {
      UpdateTotals(gifters[..last], i, gifter);
      assert after[..last] == gifters[..last][i := gifter];
    }
  }

  // The entries together hold the diamonds and the number of the contributions that have a sender.
  lemma {:induction false} TallyConserves(contributions: seq<Contribution>)
    ensures TotalOf(Tally(contributions)) == Total(Named(contributions))
    ensures CountOf(Tally(contributions)) == |Named(contributions)|
  {
    if contributions != [] {
      var before, last := contributions[..|contributions| - 1], contributions[|contributions| - 1];
      TallyConserves(before);
      if HasSender(last) {
        var gifters := Tally(before);
        var named := Named(before) + [last];
        assert named[..|named| - 1] == Named(before);
        var i := IndexOf(gifters, last.senderUserId.value);
        if i < |gifters| {
          UpdateTotals(gifters, i, Added(gifters, last)[i]);
        } else {
          assert Added(gifters, last)[..|gifters|] == gifters;
        }
      } else {
        assert Named(before) + [] == Named(before);
      }
    }
  }

  /* The top three. */

  // More diamonds, or as many in at least as many gifts.
  predicate NotBelow(a: Gifter, b: Gifter) {
    b.totalDiamondValue < a.totalDiamondValue
    || (b.totalDiamondValue == a.totalDiamondValue && b.giftCount <= a.giftCount)
  }

  // At most three entries of distinct senders, the better before the worse, and nobody left out beats one of them.
  lemma {:induction false} TopIsBest(contributions: seq<Contribution>)
    ensures var all := Tally(contributions);
            var top := Top(all);
            && |top| == (if |all| < 3 then |all| else 3)
            && Senders(top) && (forall g :: g in top ==> g in all)
            && (forall i, j :: 0 <= i < j < |top| ==> NotBelow(top[i], top[j]))
            && (forall g, t :: g in all && g !in top && t in top ==> NotBelow(t, g))
  {
    hide *;
    var all := Tally(contributions);
    var sorted := Sort(all, Beats);
    BeatsIsWeak();
    SortSorts(all, Beats);
    TallyHolds(contributions, "");
    DistinctKept(all, sorted);
    SameMembers(all, sorted);
    TopIsFirst(all);
    FirstSenders(sorted, |Top(all)|);
    TopIsNotBelow(sorted, Top(all));
  }

  lemma BeatsIsWeak()
    ensures WeakOrder(Beats)
  {
  }

  lemma SameMembers(all: seq<Gifter>, sorted: seq<Gifter>)
    requires multiset(sorted) == multiset(all)
    ensures forall g :: g in all <==> g in sorted
    ensures |all| == |sorted|
  {
    forall g ensures g in all <==> g in sorted {
      assert g in multiset(sorted) <==> g in multiset(all);
    }
    assert |multiset(all)| == |multiset(sorted)|;
  }

  lemma {:induction false} TopIsFirst(gifters: seq<Gifter>)
    ensures var sorted, top := Sort(gifters, Beats), Top(gifters);
            && |top| == (if |sorted| < 3 then |sorted| else 3)
            && top == sorted[..|top|] && forall g :: g in top ==> g in sorted
  {
    hide Sort, Beats;
  }

  lemma FirstSenders(gifters: seq<Gifter>, n: nat)
    requires Senders(gifters) && n <= |gifters|
    ensures Senders(gifters[..n])
  {
  }

  lemma NotBelowIsUnbeaten(a: Gifter, b: Gifter)
    ensures NotBelow(a, b) <==> !Beats(b, a)
  {
  }

  lemma TopIsNotBelow(sorted: seq<Gifter>, top: seq<Gifter>)
    requires Sorted(sorted, Beats) && top <= sorted
    ensures forall i, j :: 0 <= i < j < |top| ==> NotBelow(top[i], top[j])
    ensures forall g, t :: g in sorted && g !in top && t in top ==> NotBelow(t, g)
  {
    hide Beats, NotBelow;
    forall i, j | 0 <= i < j < |top| ensures NotBelow(top[i], top[j]) {
      NotBelowIsUnbeaten(top[i], top[j]);
      assert top[i] == sorted[i] && top[j] == sorted[j];
    }
    forall g, t | g in sorted && g !in top && t in top ensures NotBelow(t, g) {
      var i, j :| 0 <= i < |sorted| && sorted[i] == g && 0 <= j < |top| && top[j] == t;
      assert sorted[j] == t && top[..] == sorted[..|top|] && j < i;
      NotBelowIsUnbeaten(t, g);
    }
  }

  lemma DistinctKept(all: seq<Gifter>, sorted: seq<Gifter>)
    requires Senders(all) && multiset(sorted) == multiset(all)
    ensures Senders(sorted)
  {
    forall i, j | 0 <= i < j < |sorted| ensures sorted[i].senderUserId != sorted[j].senderUserId {
      var a, b := sorted[i], sorted[j];
      assert a in multiset(sorted) && b in multiset(sorted);
      if a.senderUserId == b.senderUserId {
        var k, l :| 0 <= k < |all| && all[k] == a && 0 <= l < |all| && all[l] == b;
        assert k == l;
        TwiceIsTwo(sorted, i, j);
        OnceIsOne(all, k);
      }
    }
  }

  lemma TwiceIsTwo<T>(s: seq<T>, i: nat, j: nat)
    requires i < j < |s| && s[i] == s[j]
    ensures multiset(s)[s[i]] >= 2
  {
    assert s == s[..i] + [s[i]] + s[i + 1..j] + [s[j]] + s[j + 1..];
  }

  lemma OnceIsOne(s: seq<Gifter>, i: nat)
    requires i < |s| && Senders(s)
    ensures multiset(s)[s[i]] == 1
  {
    assert s == s[..i] + [s[i]] + s[i + 1..];
    assert s[i] !in s[..i] && s[i] !in s[i + 1..];
  }

  /* The order of the contributions does not matter. */

  datatype Score = Score(total: int, count: nat)

  predicate Above(a: Score, b: Score) {
    a.total > b.total || (a.total == b.total && a.count > b.count)
  }

  function Scores(gifters: seq<Gifter>): (scores: seq<Score>)
    ensures |scores| == |gifters|
    ensures forall i :: 0 <= i < |gifters| ==> scores[i] == Score(gifters[i].totalDiamondValue, gifters[i].giftCount)
  {
    seq(|gifters|, i requires 0 <= i < |gifters| => Score(gifters[i].totalDiamondValue, gifters[i].giftCount))
  }

  lemma {:induction false} SentWithout(contributions: seq<Contribution>, i: nat, sender: string)
    requires i < |contributions|
    ensures var c, rest := contributions[i], contributions[..i] + contributions[i + 1..];
            && Sent(contributions, sender) == Sent(rest, sender) + (if From(c, sender) then Diamonds(c) else 0)
            && Gifts(contributions, sender) == Gifts(rest, sender) + (if From(c, sender) then 1 else 0)
            && Total(contributions) == Total(rest) + Diamonds(c)
  {
    var rest := contributions[..i] + contributions[i + 1..];
    var last := |contributions| - 1;
    if i == last {
      assert rest == contributions[..last];
    } else {
      SentWithout(contributions[..last], i, sender);
      assert rest[..last - 1] == contributions[..last][..i] + contributions[..last][i + 1..];
      assert rest[last - 1] == contributions[last];
    }
  }

  // What a sender sent is the same for every order of the contributions, and so is the summary's total.
  lemma {:induction false} SentInAnyOrder(one: seq<Contribution>, other: seq<Contribution>, sender: string)
    requires multiset(one) == multiset(other)
    ensures Sent(one, sender) == Sent(other, sender) && Gifts(one, sender) == Gifts(other, sender)
    ensures Total(one) == Total(other)
    decreases |one|
  {
    if one == [] {
      assert |multiset(other)| == 0;
    } else {
      var last, c, before := |one| - 1, one[|one| - 1], one[..|one| - 1];
      assert c in multiset(one);
      var i :| 0 <= i < |other| && other[i] == c;
      var rest := other[..i] + other[i + 1..];
      Removed(one, last);
      Removed(other, i);
      assert before == one[..last] + one[last + 1..];
      SentInAnyOrder(before, rest, sender);
      SentWithout(other, i, sender);
    }
  }

  lemma SameEntries(one: seq<Gifter>, other: seq<Gifter>)
    requires Senders(one) && Senders(other) && forall g :: g in one <==> g in other
    ensures multiset(one) == multiset(other)
  {
    forall g ensures multiset(one)[g] == multiset(other)[g] {
      if g in one {
        var i, j :| 0 <= i < |one| && one[i] == g && 0 <= j < |other| && other[j] == g;
        OnceIsOne(one, i);
        OnceIsOne(other, j);
      }
    }
  }

  lemma {:induction false} SameScores(one: seq<Gifter>, other: seq<Gifter>)
    requires multiset(one) == multiset(other)
    ensures multiset(Scores(one)) == multiset(Scores(other))
    decreases |one|
  {
    if one == [] {
      assert |multiset(other)| == 0;
    } else {
      var end, last, before := |one| - 1, one[|one| - 1], one[..|one| - 1];
      assert last in multiset(one);
      var i :| 0 <= i < |other| && other[i] == last;
      var rest := other[..i] + other[i + 1..];
      Removed(one, end);
      Removed(other, i);
      assert before == one[..end] + one[end + 1..];
      SameScores(before, rest);
      ScoresWithout(one, end);
      ScoresWithout(other, i);
    }
  }

  lemma ScoresWithout(gifters: seq<Gifter>, i: nat)
    requires i < |gifters|
    ensures var score := Score(gifters[i].totalDiamondValue, gifters[i].giftCount);
            multiset(Scores(gifters)) == multiset(Scores(gifters[..i] + gifters[i + 1..])) + multiset{score}
  {
    var scores, rest := Scores(gifters), gifters[..i] + gifters[i + 1..];
    Removed(scores, i);
    assert scores[..i] + scores[i + 1..] == Scores(rest);
    assert scores[i] in multiset(scores);
  }

  // Whatever order the contributions come in, the places hold the same totals and counts.
  lemma {:induction false} TopInAnyOrder(one: seq<Contribution>, other: seq<Contribution>)
    requires multiset(one) == multiset(other)
    ensures Scores(Top(Tally(one))) == Scores(Top(Tally(other)))
  {
    hide Tally, Sort, Senders, Scores, Sorted;
    var a, b := Sort(Tally(one), Beats), Sort(Tally(other), Beats);
    SameTally(one, other);
    SortSorts(Tally(one), Beats);
    SortSorts(Tally(other), Beats);
    SameScores(a, b);
    ScoresSorted(a);
    ScoresSorted(b);
    SortedIsUnique(Scores(a), Scores(b), Above);
    assert |a| == |Scores(a)| == |b|;
    TopScores(Tally(one));
    TopScores(Tally(other));
  }

  lemma {:induction false} SameTally(one: seq<Contribution>, other: seq<Contribution>)
    requires multiset(one) == multiset(other)
    ensures multiset(Tally(one)) == multiset(Tally(other))
  {
    hide Tally, Senders;
    TallyHolds(one, "");
    TallyHolds(other, "");
    forall g ensures g in Tally(one) <==> g in Tally(other) {
      TallyIsExact(one, g);
      TallyIsExact(other, g);
      SentInAnyOrder(one, other, g.senderUserId);
    }
    SameEntries(Tally(one), Tally(other));
  }

  lemma ScoresSorted(gifters: seq<Gifter>)
    requires Sorted(gifters, Beats)
    ensures Sorted(Scores(gifters), Above)
  {
  }

  lemma {:induction false} TopScores(gifters: seq<Gifter>)
    ensures var scores := Scores(Sort(gifters, Beats));
            Scores(Top(gifters)) == if |scores| <= PLACES then scores else scores[..PLACES]
  {
    hide Sort;
  }

  /* The summary. */

  method Summarize(contributions: seq<Contribution>)
    returns (totalDiamondValue: int, contributionCount: nat, topGifters: seq<Gifter>)
    ensures totalDiamondValue == Total(contributions) && contributionCount == |contributions|
    ensures topGifters == Top(Tally(contributions))
  {
    var gifters: seq<Gifter> := [];
    var sum := 0;
    for i := 0 to |contributions|
      invariant gifters == Tally(contributions[..i]) && sum == Total(contributions[..i])
    {
      var c := contributions[i];
      assert contributions[..i + 1][..i] == contributions[..i];
      sum := sum + Diamonds(c);
      if !HasSender(c) {
        continue;
      }
      var sender := c.senderUserId.value;
      var place := IndexOf(gifters, sender);
      var current := if place < |gifters| then gifters[place] else Gifter(sender, 0, 0);
      current := Gifter(sender, current.totalDiamondValue + Diamonds(c), current.giftCount + 1);
      gifters := if place < |gifters| then gifters[place := current] else gifters + [current];
    }
    assert contributions[..|contributions|] == contributions;
    var sorted := Sort(gifters, Beats);
    return sum, |contributions|, if |sorted| <= PLACES then sorted else sorted[..PLACES];
  }

  /* The sides. */

  datatype Side = Side(id: string, sideKey: Option<string>)

  function Rank(side: Side): int {
    match side.sideKey
    case Some("A") => 0
    case Some("B") => 1
    case Some("C") => 2
    case Some("D") => 3
    case _ => 99
  }

  predicate Precedes(a: Side, b: Side) {
    Rank(a) < Rank(b)
  }

  function SortBySideKey(sides: seq<Side>): seq<Side> {
    Sort(sides, Precedes)
  }

  const LETTERS: seq<Option<string>> := [Some("A"), Some("B"), Some("C"), Some("D")]

  // Sides with the same letter, or both without one of the four.
  predicate Together(a: Side, b: Side) {
    a.sideKey == b.sideKey || (a.sideKey !in LETTERS && b.sideKey !in LETTERS)
  }

  lemma TiesAreTogether(a: Side, b: Side)
    ensures !Precedes(a, b) && !Precedes(b, a) <==> Together(a, b)
  {
    assert LETTERS[0] == Some("A") && LETTERS[1] == Some("B") && LETTERS[2] == Some("C") && LETTERS[3] == Some("D");
  }

  lemma NoneAfter(a: Side, b: Side, k: nat)
    requires k < 4 && !Precedes(b, a) && b.sideKey == LETTERS[k]
    ensures a.sideKey in LETTERS[..k + 1]
  {
    assert LETTERS[0] == Some("A") && LETTERS[1] == Some("B") && LETTERS[2] == Some("C") && LETTERS[3] == Some("D");
    assert Rank(b) == k;
    assert a.sideKey == LETTERS[Rank(a)] && LETTERS[..k + 1][Rank(a)] == LETTERS[Rank(a)];
  }

  // The sides A to D in that order and the rest after them; sides that belong together stay in their order.
  lemma {:induction false} SidesInOrder(sides: seq<Side>)
    ensures var sorted := SortBySideKey(sides);
            && multiset(sorted) == multiset(sides)
            && (forall i, j, k :: 0 <= i < j < |sorted| && 0 <= k < 4 && sorted[j].sideKey == LETTERS[k] ==>
                  sorted[i].sideKey in LETTERS[..k + 1])
            && (forall side :: Ties(sorted, side, Precedes) == Ties(sides, side, Precedes))
            && (forall a, b :: !Precedes(a, b) && !Precedes(b, a) <==> Together(a, b))
  {
    forall a, b ensures !Precedes(a, b) && !Precedes(b, a) <==> Together(a, b) {
      TiesAreTogether(a, b);
    }
    var sorted := SortBySideKey(sides);
    SortSorts(sides, Precedes);
    forall i, j, k | 0 <= i < j < |sorted| && 0 <= k < 4 && sorted[j].sideKey == LETTERS[k]
      ensures sorted[i].sideKey in LETTERS[..k + 1]
    {
      NoneAfter(sorted[i], sorted[j], k);
    }
    forall side ensures Ties(SortBySideKey(sides), side, Precedes) == Ties(sides, side, Precedes) {
      SortKeepsTies(sides, side, Precedes);
    }
  }
}
