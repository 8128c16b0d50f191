/** An ordered frequency table: the model of the `collections.Counter` objects that
    merge_results (main.py) fills. Entries keep the order in which their value was
    first counted, which is the order a Counter iterates in, and therefore the order
    in which `most_common` breaks ties. */
module Tally {
  import opened Wrappers

  datatype Entry = Entry(value: string, count: nat)
  type Tally = seq<Entry>

  /** Number of votes cast for `v`. */
  function Count(votes: seq<string>, v: string): nat {
    multiset(votes)[v]
  }

  /** Position of the first vote for `v`. */
  function FirstIndex(votes: seq<string>, v: string): (k: nat)
    requires v in votes
    ensures k < |votes| && votes[k] == v
    ensures forall i :: 0 <= i < k ==> votes[i] != v
  {
    if votes[0] == v then 0 else 1 + FirstIndex(votes[1..], v)
  }

  /** The first position at which `v` is tallied, if it is tallied at all. */
  function Find(t: Tally, v: string): (k: Option<nat>)
    ensures k.Some? ==> k.value < |t| && t[k.value].value == v
    ensures k.Some? ==> forall j :: 0 <= j < k.value ==> t[j].value != v
    ensures k.None? ==> forall j :: 0 <= j < |t| ==> t[j].value != v
  {
    if t == [] then None
    else if t[0].value == v then Some(0)
    else
      match Find(t[1..], v)
      case None => None
      case Some(k) => Some(k + 1)
  }

  /** `counter[v] += 1`: a value already tallied gains one vote where it stands,
      a new value is appended with one vote. */
  function Bump(t: Tally, v: string): Tally {
    match Find(t, v)
    case Some(k) => t[k := Entry(v, t[k].count + 1)]
    case None => t + [Entry(v, 1)]
  }

  /** The table after counting `votes` in order, starting from an empty Counter. */
  function TallyOf(votes: seq<string>): Tally {
    if votes == [] then [] else Bump(TallyOf(votes[..|votes| - 1]), votes[|votes| - 1])
  }

  /** Every entry of `t` counts its value exactly. */
  ghost predicate CountsExact(t: Tally, votes: seq<string>) {
    forall j :: 0 <= j < |t| ==> t[j].value in votes && t[j].count == Count(votes, t[j].value)
  }

  /** Every value voted for has an entry in `t`. */
  ghost predicate Covers(t: Tally, votes: seq<string>) {
    forall v :: v in votes ==> Find(t, v).Some?
  }

  /** Entries appear in the order of their value's first vote. */
  ghost predicate InFirstVoteOrder(t: Tally, votes: seq<string>) {
    forall i, j :: 0 <= i < j < |t| && t[i].value in votes && t[j].value in votes ==>
      FirstIndex(votes, t[i].value) < FirstIndex(votes, t[j].value)
  }

  /** `t` is the ordered frequency table of `votes`: every entry counts its value
      exactly, every voted value has an entry, and entries appear in first-vote order
      (so no value has two entries). */
  ghost predicate Tallies(t: Tally, votes: seq<string>) {
    CountsExact(t, votes) && Covers(t, votes) && InFirstVoteOrder(t, votes)
  }

  /** Index of the entry `Counter.most_common(1)` returns. CPython computes it as
      `max(items, key=count)`, which replaces its candidate only on a strictly larger
      count: the result has the largest count, and every earlier entry a smaller one. */
  function MostCommon(t: Tally): (k: nat)
    requires t != []
    ensures k < |t|
    ensures forall j :: 0 <= j < |t| ==> t[j].count <= t[k].count
    ensures forall j :: 0 <= j < k ==> t[j].count < t[k].count
  {
    if |t| == 1 then 0
    else
      var k := MostCommon(t[..|t| - 1]);
      if t[k].count < t[|t| - 1].count then |t| - 1 else k
  }

  lemma FirstIndexIs(votes: seq<string>, v: string, k: nat)
    requires k < |votes| && votes[k] == v
    requires forall i :: 0 <= i < k ==> votes[i] != v
    ensures FirstIndex(votes, v) == k
  {
  }

  lemma FirstIndexSnoc(votes: seq<string>, x: string, v: string)
    requires v in votes
    ensures FirstIndex(votes + [x], v) == FirstIndex(votes, v)
  {
    FirstIndexIs(votes + [x], v, FirstIndex(votes, v));
  }

  lemma CountSnoc(votes: seq<string>, x: string, v: string)
    ensures Count(votes + [x], v) == Count(votes, v) + (if v == x then 1 else 0)
  {
    assert multiset(votes + [x]) == multiset(votes) + multiset{x};
  }

  /** In a table in first-vote order, distinct positions hold distinct values. */
  lemma ValuesDistinct(t: Tally, votes: seq<string>, i: nat, j: nat)
    requires CountsExact(t, votes) && InFirstVoteOrder(t, votes)
    requires i < |t| && j < |t| && i != j
    ensures t[i].value != t[j].value
  {
    if i < j {
      assert FirstIndex(votes, t[i].value) < FirstIndex(votes, t[j].value);
    } else {
      assert FirstIndex(votes, t[j].value) < FirstIndex(votes, t[i].value);
    }
  }

  /** Counting a vote for a value already tallied at `k` keeps the table exact. */
  lemma BumpExisting(t: Tally, votes: seq<string>, x: string, k: nat)
    requires Tallies(t, votes)
    requires k < |t| && t[k].value == x
    ensures Tallies(t[k := Entry(x, t[k].count + 1)], votes + [x])
  {
    var ws, r := votes + [x], t[k := Entry(x, t[k].count + 1)];
    assert forall j :: 0 <= j < |t| ==> r[j].value == t[j].value;
    assert CountsExact(r, ws) by {
      forall j | 0 <= j < |r| ensures r[j].value in ws && r[j].count == Count(ws, r[j].value) {
        CountSnoc(votes, x, r[j].value);
        if j != k {
          ValuesDistinct(t, votes, j, k);
        }
      }
    }
    assert Covers(r, ws) by {
      forall v | v in ws ensures Find(r, v).Some? {
        if v == x {
          assert r[k].value == v;
        } else {
          assert v in votes;
          assert r[Find(t, v).value].value == v;
        }
      }
    }
    assert InFirstVoteOrder(r, ws) by {
      forall i, j | 0 <= i < j < |r| && r[i].value in ws && r[j].value in ws
        ensures FirstIndex(ws, r[i].value) < FirstIndex(ws, r[j].value)
      {
        FirstIndexSnoc(votes, x, t[i].value);
        FirstIndexSnoc(votes, x, t[j].value);
      }
    }
  }

  /** Counting a vote for a value not yet tallied keeps the table exact. */
  lemma BumpNew(t: Tally, votes: seq<string>, x: string)
    requires Tallies(t, votes)
    requires forall j :: 0 <= j < |t| ==> t[j].value != x
    ensures Tallies(t + [Entry(x, 1)], votes + [x])
  {
    var ws, r := votes + [x], t + [Entry(x, 1)];
    assert x !in votes;
    assert CountsExact(r, ws) by {
      forall j | 0 <= j < |r| ensures r[j].value in ws && r[j].count == Count(ws, r[j].value) {
        CountSnoc(votes, x, r[j].value);
      }
    }
    assert Covers(r, ws) by {
      forall v | v in ws ensures Find(r, v).Some? {
        if v == x {
          assert r[|t|].value == v;
        } else {
          assert v in votes;
          assert r[Find(t, v).value].value == v;
        }
      }
    }
    assert InFirstVoteOrder(r, ws) by {
      FirstIndexIs(ws, x, |votes|);
      forall i, j | 0 <= i < j < |r| && r[i].value in ws && r[j].value in ws
        ensures FirstIndex(ws, r[i].value) < FirstIndex(ws, r[j].value)
      {
        FirstIndexSnoc(votes, x, t[i].value);
        if j < |t| {
          FirstIndexSnoc(votes, x, t[j].value);
        }
      }
    }
  }

  /** Counting one more vote keeps the table exact. */
  lemma BumpTallies(t: Tally, votes: seq<string>, x: string)
    requires Tallies(t, votes)
    ensures Tallies(Bump(t, x), votes + [x])
  {
    match Find(t, x)
    case Some(k) => BumpExisting(t, votes, x, k);
    case None => BumpNew(t, votes, x);
  }

  /** TallyOf builds exactly the frequency table of its votes. */
  lemma {:induction false} TallyOfTallies(votes: seq<string>)
    ensures Tallies(TallyOf(votes), votes)
  {
    if votes != [] {
      var init, x := votes[..|votes| - 1], votes[|votes| - 1];
      assert votes == init + [x];
      TallyOfTallies(init);
      BumpTallies(TallyOf(init), init, x);
    }
  }

  /** `w` wins a plurality vote with first-seen tie-breaking: it received a vote, no
      value has more votes, and every value voted for before `w`'s first vote has
      fewer. */
  ghost predicate IsPluralityWinner(votes: seq<string>, w: string) {
    && w in votes
    && (forall v :: Count(votes, v) <= Count(votes, w))
    && (forall i :: 0 <= i < FirstIndex(votes, w) ==> Count(votes, votes[i]) < Count(votes, w))
  }

  /** In the frequency table of `votes`, an entry with the largest count, preceded only
      by entries with smaller counts, holds the plurality winner. */
  lemma TopIsPlurality(t: Tally, votes: seq<string>, k: nat)
    requires Tallies(t, votes)
    requires k < |t|
    requires forall j :: 0 <= j < |t| ==> t[j].count <= t[k].count
    requires forall j :: 0 <= j < k ==> t[j].count < t[k].count
    ensures IsPluralityWinner(votes, t[k].value)
  {
    var w := t[k].value;
    assert forall v :: Count(votes, v) <= Count(votes, w) by {
      forall v ensures Count(votes, v) <= Count(votes, w) {
        if v in votes {
          assert t[Find(t, v).value].count == Count(votes, v);
        }
      }
    }
    forall i | 0 <= i < FirstIndex(votes, w) ensures Count(votes, votes[i]) < Count(votes, w) {
      var v := votes[i];
      assert v in votes;
      var m := Find(t, v).value;
      assert FirstIndex(votes, v) <= i;
      assert m < k;
    }
  }

  /** The value `most_common(1)` picks from the table of a non-empty vote sequence
      is the plurality winner, ties going to the value counted first. */
  lemma MostCommonOfVotes(votes: seq<string>)
    requires votes != []
    ensures TallyOf(votes) != []
    ensures IsPluralityWinner(votes, TallyOf(votes)[MostCommon(TallyOf(votes))].value)
  {
    var t := TallyOf(votes);
    TallyOfTallies(votes);
    assert Find(t, votes[0]).Some?;
    TopIsPlurality(t, votes, MostCommon(t));
  }

  /** The plurality rule with first-seen tie-breaking names at most one winner. */
  lemma PluralityWinnerUnique(votes: seq<string>, w1: string, w2: string)
    requires IsPluralityWinner(votes, w1) && IsPluralityWinner(votes, w2)
    ensures w1 == w2
  {
    assert Count(votes, w1) == Count(votes, w2);
  }

  /** Casting every vote twice, in the same order, elects the same winner. */
  lemma WinnerOfDoubled(votes: seq<string>, w: string)
    requires IsPluralityWinner(votes + votes, w)
    ensures IsPluralityWinner(votes, w)
  {
    var ww := votes + votes;
    forall v ensures Count(ww, v) == 2 * Count(votes, v) {
      assert multiset(ww) == multiset(votes) + multiset(votes);
    }
    assert w in votes by {
      var k := FirstIndex(ww, w);
      if k >= |votes| {
        assert ww[k] == votes[k - |votes|];
      }
    }
    FirstIndexIs(ww, w, FirstIndex(votes, w));
    forall i | 0 <= i < FirstIndex(votes, w) ensures Count(votes, votes[i]) < Count(votes, w) {
      assert ww[i] == votes[i];
    }
  }
}
