/** merge_results (main.py:65-129): folds the per-image identification results into
    one medicine profile. For each of the two lenses, `accurate` and `guessed`, every
    scalar field is decided by a plurality vote over the results that supply it, and
    the `side_effects` lists are pooled and deduplicated. */
module Merging {
  import opened Wrappers
  import opened Tally

  /** The placeholder a scalar gets when no result voted for it. */
  const Unknown := "Unknown"

  /** One lens of an image result: each key may be missing. */
  datatype Lens = Lens(
    name: Option<string>,
    dosage: Option<string>,
    sideEffects: Option<seq<string>>,
    manufacturer: Option<string>,
    usage: Option<string>)

  /** What one image produced: a JSON value that is not an object (skipped by the
      merge), or an object with optional `accurate` and `guessed` keys. Of the
      `error` key only its presence is ever looked at (main.py:140). */
  datatype ImageResult =
    | NotDict
    | Dict(accurate: Option<Lens>, guessed: Option<Lens>, hasError: bool)

  datatype Side = Accurate | Guessed
  datatype Field = Name | Dosage | Manufacturer | Usage

  /** One lens of the consolidated result: every scalar is always present. */
  datatype Profile = Profile(
    name: string,
    dosage: string,
    sideEffects: seq<string>,
    manufacturer: string,
    usage: string)

  datatype Merged = Merged(accurate: Profile, guessed: Profile)

  const UnknownProfile := Profile(Unknown, Unknown, [], Unknown, Unknown)

  function LensOf(r: ImageResult, side: Side): Option<Lens> {
    match r
    case NotDict => None
    case Dict(a, g, _) => if side == Accurate then a else g
  }

  function FieldOf(l: Lens, f: Field): Option<string> {
    match f
    case Name => l.name
    case Dosage => l.dosage
    case Manufacturer => l.manufacturer
    case Usage => l.usage
  }

  function Scalar(p: Profile, f: Field): string {
    match f
    case Name => p.name
    case Dosage => p.dosage
    case Manufacturer => p.manufacturer
    case Usage => p.usage
  }

  function ProfileFor(m: Merged, side: Side): Profile {
    if side == Accurate then m.accurate else m.guessed
  }

  function OptionSeq<T>(o: Option<T>): seq<T> {
    match o
    case None => []
    case Some(v) => [v]
  }

  /** The lenses of one side, in result order, from the results that are dicts
      holding that lens key (main.py:85, 87, 101). */
  function Lenses(rs: seq<ImageResult>, side: Side): seq<Lens> {
    if rs == [] then [] else Lenses(rs[..|rs| - 1], side) + OptionSeq(LensOf(rs[|rs| - 1], side))
  }

  /** The values supplied for one field, in order: a lens without the key casts no vote. */
  function FieldVotes(ls: seq<Lens>, f: Field): seq<string> {
    if ls == [] then [] else FieldVotes(ls[..|ls| - 1], f) + OptionSeq(FieldOf(ls[|ls| - 1], f))
  }

  /** All supplied `side_effects` lists, concatenated (the `extend` calls). */
  function SideEffectPool(ls: seq<Lens>): seq<string> {
    if ls == [] then [] else SideEffectPool(ls[..|ls| - 1]) + ls[|ls| - 1].sideEffects.GetOr([])
  }

  function Votes(rs: seq<ImageResult>, side: Side, f: Field): seq<string> {
    FieldVotes(Lenses(rs, side), f)
  }

  /** The side effects one result supplies for one side. */
  function SuppliedSideEffects(r: ImageResult, side: Side): seq<string> {
    match LensOf(r, side)
    case None => []
    case Some(l) => l.sideEffects.GetOr([])
  }

  ghost predicate NoDuplicates(s: seq<string>) {
    forall i, j :: 0 <= i < j < |s| ==> s[i] != s[j]
  }

  /** `list(set(s))`: the elements of `s` without repetition. Python's order is
      hash-dependent; this model keeps first occurrences, which is one of the orders
      Python may produce. */
  function Distinct(s: seq<string>): (r: seq<string>)
    ensures NoDuplicates(r)
    ensures forall x :: x in r <==> x in s
  {
    if s == [] then []
    else
      var d := Distinct(s[..|s| - 1]);
      if s[|s| - 1] in d then d else d + [s[|s| - 1]]
  }

  /** `if "key" in data: counter[data["key"]] += 1`. */
  function AddVote(t: Tally, o: Option<string>): Tally {
    if o.Some? then Bump(t, o.value) else t
  }

  /** `counter.most_common(1)[0][0] if counter else "Unknown"`. */
  function Choose(t: Tally): string {
    if t == [] then Unknown else t[MostCommon(t)].value
  }

  /** The final selection of one lens (main.py:115-121 and 122-128). */
  function Summarize(name: Tally, dosage: Tally, sideEffects: seq<string>, manufacturer: Tally, usage: Tally): Profile {
    Profile(Choose(name), Choose(dosage), Distinct(sideEffects), Choose(manufacturer), Choose(usage))
  }

  function ProfileOf(rs: seq<ImageResult>, side: Side): Profile {
    var ls := Lenses(rs, side);
    Summarize(TallyOf(FieldVotes(ls, Name)), TallyOf(FieldVotes(ls, Dosage)), SideEffectPool(ls),
              TallyOf(FieldVotes(ls, Manufacturer)), TallyOf(FieldVotes(ls, Usage)))
  }

  /** What merge_results returns for `rs`. */
  function Merge(rs: seq<ImageResult>): Merged {
    Merged(ProfileOf(rs, Accurate), ProfileOf(rs, Guessed))
  }

  /** The four Counters and the side-effect list of one lens, `merged_data[lens]`
      (main.py:67-82), updated in place while the results are scanned. */
  class LensTally {
    var name: Tally
    var dosage: Tally
    var sideEffects: seq<string>
    var manufacturer: Tally
    var usage: Tally

    constructor ()
      ensures name == [] && dosage == [] && sideEffects == [] && manufacturer == [] && usage == []
    {
      name, dosage, sideEffects, manufacturer, usage := [], [], [], [], [];
    }

    /** Counts the fields `l` holds and extends the side effects with its list
        (main.py:88-98 and 102-112). Counting `l` after the lenses `ls` gives the
        Counters of `ls + [l]`. */
    method Absorb(l: Lens, ghost ls: seq<Lens>)
      requires Holds(ls)
      modifies this
      ensures name == AddVote(old(name), l.name)
      ensures dosage == AddVote(old(dosage), l.dosage)
      ensures sideEffects == old(sideEffects) + l.sideEffects.GetOr([])
      ensures manufacturer == AddVote(old(manufacturer), l.manufacturer)
      ensures usage == AddVote(old(usage), l.usage)
      ensures Holds(ls + [l])
    {
      AbsorbStep(ls, l);
      forall f ensures TallyOf(FieldVotes(ls + [l], f)) == AddVote(TallyOf(FieldVotes(ls, f)), FieldOf(l, f)) {
        AddVoteTallies(FieldVotes(ls, f), FieldOf(l, f));
      }
      if l.name.Some? { name := Bump(name, l.name.value); }
      if l.dosage.Some? { dosage := Bump(dosage, l.dosage.value); }
      if l.sideEffects.Some? { sideEffects := sideEffects + l.sideEffects.value; }
      if l.manufacturer.Some? { manufacturer := Bump(manufacturer, l.manufacturer.value); }
      if l.usage.Some? { usage := Bump(usage, l.usage.value); }
    }

    /** This lens's Counters are those of the lenses `ls`. */
    ghost predicate Holds(ls: seq<Lens>)
      reads this
    {
      && name == TallyOf(FieldVotes(ls, Name))
      && dosage == TallyOf(FieldVotes(ls, Dosage))
      && sideEffects == SideEffectPool(ls)
      && manufacturer == TallyOf(FieldVotes(ls, Manufacturer))
      && usage == TallyOf(FieldVotes(ls, Usage))
    }
  }

  /** One more lens extends every vote sequence and the pool by that lens's entries. */
  lemma AbsorbStep(ls: seq<Lens>, l: Lens)
    ensures forall f :: FieldVotes(ls + [l], f) == FieldVotes(ls, f) + OptionSeq(FieldOf(l, f))
    ensures SideEffectPool(ls + [l]) == SideEffectPool(ls) + l.sideEffects.GetOr([])
  {
    assert (ls + [l])[..|ls|] == ls;
  }

  lemma AddVoteTallies(votes: seq<string>, o: Option<string>)
    ensures TallyOf(votes + OptionSeq(o)) == AddVote(TallyOf(votes), o)
  {
    if o.Some? {
      assert (votes + [o.value])[..|votes|] == votes;
    } else {
      assert votes + [] == votes;
    }
  }

  lemma LensesStep(rs: seq<ImageResult>, i: nat, side: Side)
    requires i < |rs|
    ensures Lenses(rs[..i + 1], side) == Lenses(rs[..i], side) + OptionSeq(LensOf(rs[i], side))
  {
    assert rs[..i + 1][..i] == rs[..i];
  }

  /** The body of the loop of merge_results (main.py:85-112): a dict result is
      counted into the lens Counters it has a key for; anything else is skipped. */
  method AbsorbResult(result: ImageResult, accurate: LensTally, guessed: LensTally,
                      ghost la: seq<Lens>, ghost lg: seq<Lens>)
    requires accurate != guessed
    requires accurate.Holds(la) && guessed.Holds(lg)
    modifies accurate, guessed
    ensures accurate.Holds(la + OptionSeq(LensOf(result, Accurate)))
    ensures guessed.Holds(lg + OptionSeq(LensOf(result, Guessed)))
  {
    if result.Dict? {
      if result.accurate.Some? {
        accurate.Absorb(result.accurate.value, la);
      } else {
        assert la + [] == la;
      }
      if result.guessed.Some? {
        guessed.Absorb(result.guessed.value, lg);
      } else {
        assert lg + [] == lg;
      }
    } else {
      assert la + [] == la && lg + [] == lg;
    }
  }

  /** The loop of merge_results (main.py:84-112) followed by the selection
      (main.py:114-129). */
  method MergeResults(results: seq<ImageResult>) returns (m: Merged)
    ensures m == Merge(results)
  {
    var accurate := new LensTally();
    var guessed := new LensTally();
    var i := 0;
    while i < |results|
      invariant 0 <= i <= |results|
      invariant accurate.Holds(Lenses(results[..i], Accurate))
      invariant guessed.Holds(Lenses(results[..i], Guessed))
    {
      LensesStep(results, i, Accurate);
      LensesStep(results, i, Guessed);
      AbsorbResult(results[i], accurate, guessed, Lenses(results[..i], Accurate), Lenses(results[..i], Guessed));
      i := i + 1;
    }
    assert results[..i] == results;
    m := Merged(
      Summarize(accurate.name, accurate.dosage, accurate.sideEffects, accurate.manufacturer, accurate.usage),
      Summarize(guessed.name, guessed.dosage, guessed.sideEffects, guessed.manufacturer, guessed.usage));
  }

  // ----- Properties of the merge -----

  lemma {:induction false} LensesAppend(a: seq<ImageResult>, b: seq<ImageResult>, side: Side)
    ensures Lenses(a + b, side) == Lenses(a, side) + Lenses(b, side)
  {
    if b == [] {
      assert a + b == a;
    } else {
      var b', r := b[..|b| - 1], b[|b| - 1];
      assert (a + b)[..|a + b| - 1] == a + b';
      LensesAppend(a, b', side);
    }
  }

  lemma {:induction false} FieldVotesAppend(a: seq<Lens>, b: seq<Lens>, f: Field)
    ensures FieldVotes(a + b, f) == FieldVotes(a, f) + FieldVotes(b, f)
  {
    if b == [] {
      assert a + b == a;
    } else {
      assert (a + b)[..|a + b| - 1] == a + b[..|b| - 1];
      FieldVotesAppend(a, b[..|b| - 1], f);
    }
  }

  lemma {:induction false} SideEffectPoolAppend(a: seq<Lens>, b: seq<Lens>)
    ensures SideEffectPool(a + b) == SideEffectPool(a) + SideEffectPool(b)
  {
    if b == [] {
      assert a + b == a;
    } else {
      assert (a + b)[..|a + b| - 1] == a + b[..|b| - 1];
      SideEffectPoolAppend(a, b[..|b| - 1]);
    }
  }

  lemma ScalarIsChosen(rs: seq<ImageResult>, side: Side, f: Field)
    ensures Scalar(ProfileFor(Merge(rs), side), f) == Choose(TallyOf(Votes(rs, side, f)))
  {
  }

  /** Each consolidated scalar is "Unknown" when no result voted for it, and otherwise
      the plurality winner among the supplied values, ties going to the value seen first
      (main.py:89-98, 103-112, 116-127). */
  lemma ScalarIsPlurality(rs: seq<ImageResult>, side: Side, f: Field)
    ensures Votes(rs, side, f) == [] ==> Scalar(ProfileFor(Merge(rs), side), f) == Unknown
    ensures Votes(rs, side, f) != [] ==> IsPluralityWinner(Votes(rs, side, f), Scalar(ProfileFor(Merge(rs), side), f))
  {
    ScalarIsChosen(rs, side, f);
    if Votes(rs, side, f) != [] {
      MostCommonOfVotes(Votes(rs, side, f));
    }
  }

  /** Unless some result itself supplies the string "Unknown", a scalar is "Unknown"
      exactly when no result voted for it. */
  lemma UnknownExactlyWhenNoVotes(rs: seq<ImageResult>, side: Side, f: Field)
    requires Unknown !in Votes(rs, side, f)
    ensures Scalar(ProfileFor(Merge(rs), side), f) == Unknown <==> Votes(rs, side, f) == []
  {
    ScalarIsPlurality(rs, side, f);
  }

  /** A result whose name is the literal "Unknown" is indistinguishable in the output
      from no result at all. */
  lemma UnknownVoteLooksLikeNoVote(l: Lens)
    requires l.name == Some(Unknown)
    ensures var voted := [Dict(Some(l), None, false)];
      && Votes(voted, Accurate, Name) == [Unknown]
      && Merge(voted).accurate.name == Merge([]).accurate.name
  {
    var voted := [Dict(Some(l), None, false)];
    VoteOfOne(voted[0], Accurate, Name);
    ScalarOfOne(voted, Accurate, Name, Unknown);
    ScalarIsPlurality([], Accurate, Name);
  }

  /** Side effects are the pooled lists with duplicates removed: every supplied side
      effect appears once, and nothing else appears (main.py:93-94, 107-108, 118, 125). */
  lemma SideEffectsAreUnion(rs: seq<ImageResult>, side: Side)
    ensures var out := ProfileFor(Merge(rs), side).sideEffects;
      && NoDuplicates(out)
      && (forall x :: x in out <==> SuppliedBySome(rs, side, x))
  {
    PoolMembers(rs, side);
  }

  lemma PoolSnoc(init: seq<ImageResult>, r: ImageResult, side: Side)
    ensures SideEffectPool(Lenses(init + [r], side)) == SideEffectPool(Lenses(init, side)) + SuppliedSideEffects(r, side)
  {
    var ls := Lenses(init, side);
    assert (init + [r])[..|init|] == init;
    if LensOf(r, side).Some? {
      AbsorbStep(ls, LensOf(r, side).value);
    } else {
      assert ls + [] == ls;
    }
  }

  /** A side effect is pooled exactly when some result supplied it. */
  ghost predicate SuppliedBySome(rs: seq<ImageResult>, side: Side, x: string) {
    exists i :: 0 <= i < |rs| && x in SuppliedSideEffects(rs[i], side)
  }

  lemma {:induction false} PoolMembers(rs: seq<ImageResult>, side: Side)
    ensures forall x :: x in SideEffectPool(Lenses(rs, side)) <==> SuppliedBySome(rs, side, x)
  {
    if rs != [] {
      var init, r := rs[..|rs| - 1], rs[|rs| - 1];
      PoolMembers(init, side);
      assert rs == init + [r];
      PoolSnoc(init, r, side);
      forall x ensures x in SideEffectPool(Lenses(rs, side)) <==> SuppliedBySome(rs, side, x) {
        SuppliedBySnoc(init, r, side, x);
      }
    }
  }

  /** Some result of `init + [r]` supplies `x` exactly when some result of `init` or
      `r` itself does. */
  lemma SuppliedBySnoc(init: seq<ImageResult>, r: ImageResult, side: Side, x: string)
    ensures SuppliedBySome(init + [r], side, x) <==> SuppliedBySome(init, side, x) || x in SuppliedSideEffects(r, side)
  {
    var rs := init + [r];
    if SuppliedBySome(init, side, x) {
      var i :| 0 <= i < |init| && x in SuppliedSideEffects(init[i], side);
      assert rs[i] == init[i];
    }
    if x in SuppliedSideEffects(r, side) {
      assert rs[|init|] == r;
    }
    if SuppliedBySome(rs, side, x) {
      var i :| 0 <= i < |rs| && x in SuppliedSideEffects(rs[i], side);
      if i < |init| {
        assert init[i] == rs[i];
      }
    }
  }

  lemma {:induction false} LensesAgree(rs1: seq<ImageResult>, rs2: seq<ImageResult>, side: Side)
    requires |rs1| == |rs2|
    requires forall i :: 0 <= i < |rs1| ==> LensOf(rs1[i], side) == LensOf(rs2[i], side)
    ensures Lenses(rs1, side) == Lenses(rs2, side)
  {
    if rs1 != [] {
      var n := |rs1| - 1;
      assert forall i :: 0 <= i < n ==> rs1[..n][i] == rs1[i] && rs2[..n][i] == rs2[i];
      LensesAgree(rs1[..n], rs2[..n], side);
    }
  }

  /** The `accurate` and `guessed` tallies are independent: two batches whose results
      agree, result by result, on one lens yield the same profile for it, however
      their other lens and their `error` keys differ. */
  lemma SidesIndependent(rs1: seq<ImageResult>, rs2: seq<ImageResult>, side: Side)
    requires |rs1| == |rs2|
    requires forall i :: 0 <= i < |rs1| ==> LensOf(rs1[i], side) == LensOf(rs2[i], side)
    ensures ProfileFor(Merge(rs1), side) == ProfileFor(Merge(rs2), side)
  {
    LensesAgree(rs1, rs2, side);
  }

  /** A result without a lens for `side` (a non-dict, or a dict lacking the key)
      contributes no vote and no side effect, wherever it stands (main.py:85, 87, 101). */
  lemma ResultWithoutLensIgnored(a: seq<ImageResult>, r: ImageResult, b: seq<ImageResult>, side: Side)
    requires LensOf(r, side).None?
    ensures ProfileFor(Merge(a + [r] + b), side) == ProfileFor(Merge(a + b), side)
  {
    LensesAppend(a + [r], b, side);
    LensesAppend(a, [r], side);
    LensesAppend(a, b, side);
    assert [r][..0] == [];
    assert Lenses(a, side) + [] == Lenses(a, side);
  }

  /** A result that is not a dict is skipped altogether (main.py:85). */
  lemma NotDictIgnored(a: seq<ImageResult>, b: seq<ImageResult>)
    ensures Merge(a + [NotDict] + b) == Merge(a + b)
  {
    ResultWithoutLensIgnored(a, NotDict, b, Accurate);
    ResultWithoutLensIgnored(a, NotDict, b, Guessed);
  }

  /** A lens that lacks a scalar key casts no vote for it: the scalar comes out as if
      that result were not there (main.py:89, 91, 95, 97 and 103, 105, 109, 111). */
  lemma AbsentFieldCastsNoVote(a: seq<ImageResult>, r: ImageResult, b: seq<ImageResult>, side: Side, f: Field)
    requires LensOf(r, side).Some? && FieldOf(LensOf(r, side).value, f).None?
    ensures Votes(a + [r] + b, side, f) == Votes(a + b, side, f)
    ensures Scalar(ProfileFor(Merge(a + [r] + b), side), f) == Scalar(ProfileFor(Merge(a + b), side), f)
  {
    var l := LensOf(r, side).value;
    LensesAppend(a + [r], b, side);
    LensesAppend(a, [r], side);
    LensesAppend(a, b, side);
    assert [r][..0] == [];
    assert Lenses([r], side) == [l];
    FieldVotesAppend(Lenses(a, side) + [l], Lenses(b, side), f);
    FieldVotesAppend(Lenses(a, side), [l], f);
    FieldVotesAppend(Lenses(a, side), Lenses(b, side), f);
    assert [l][..0] == [];
    assert FieldVotes(Lenses(a, side), f) + [] == FieldVotes(Lenses(a, side), f);
    ScalarIsChosen(a + [r] + b, side, f);
    ScalarIsChosen(a + b, side, f);
  }

  lemma {:induction false} NoLensesWithoutContribution(rs: seq<ImageResult>, side: Side)
    requires forall i :: 0 <= i < |rs| ==> LensOf(rs[i], side).None?
    ensures Lenses(rs, side) == []
  {
    if rs != [] {
      var init := rs[..|rs| - 1];
      assert forall i :: 0 <= i < |init| ==> init[i] == rs[i];
      NoLensesWithoutContribution(init, side);
    }
  }

  /** When no result contributes a lens (in particular for no results at all) the merge
      does not fail: every scalar is "Unknown" and both side-effect lists are empty
      (main.py:67-82, 114-129). */
  lemma NoContributionIsAllUnknown(rs: seq<ImageResult>)
    requires forall i :: 0 <= i < |rs| ==> LensOf(rs[i], Accurate).None? && LensOf(rs[i], Guessed).None?
    ensures Merge(rs) == Merged(UnknownProfile, UnknownProfile)
  {
    NoLensesWithoutContribution(rs, Accurate);
    NoLensesWithoutContribution(rs, Guessed);
  }

  lemma {:induction false} DistinctAbsorbs(s: seq<string>, t: seq<string>)
    requires forall x :: x in t ==> x in s
    ensures Distinct(s + t) == Distinct(s)
  {
    if t == [] {
      assert s + t == s;
    } else {
      var t' := t[..|t| - 1];
      assert (s + t)[..|s + t| - 1] == s + t';
      DistinctAbsorbs(s, t');
    }
  }

  lemma ChooseOfDoubled(votes: seq<string>)
    ensures Choose(TallyOf(votes + votes)) == Choose(TallyOf(votes))
  {
    if votes != [] {
      MostCommonOfVotes(votes + votes);
      MostCommonOfVotes(votes);
      var w2 := TallyOf(votes + votes)[MostCommon(TallyOf(votes + votes))].value;
      WinnerOfDoubled(votes, w2);
      PluralityWinnerUnique(votes, w2, TallyOf(votes)[MostCommon(TallyOf(votes))].value);
    }
  }

  /** Submitting every image twice, in the same order, changes nothing: counts double,
      first-seen order is kept, and the side effects pooled a second time are already
      present. */
  lemma MergeTwiceIsSame(rs: seq<ImageResult>)
    ensures Merge(rs + rs) == Merge(rs)
  {
    forall side ensures ProfileOf(rs + rs, side) == ProfileOf(rs, side) {
      var ls := Lenses(rs, side);
      LensesAppend(rs, rs, side);
      SideEffectPoolAppend(ls, ls);
      DistinctAbsorbs(SideEffectPool(ls), SideEffectPool(ls));
      forall f ensures Choose(TallyOf(FieldVotes(ls + ls, f))) == Choose(TallyOf(FieldVotes(ls, f))) {
        FieldVotesAppend(ls, ls, f);
        ChooseOfDoubled(FieldVotes(ls, f));
      }
    }
  }

  // ----- Worked cases -----

  const EmptyLens := Lens(None, None, None, None, None)

  /** `{"accurate": l}`. */
  function AccurateOnly(l: Lens): ImageResult {
    Dict(Some(l), None, false)
  }

  lemma VotesOfTwo(r1: ImageResult, r2: ImageResult, side: Side, f: Field)
    ensures Votes([r1, r2], side, f) == Votes([r1], side, f) + Votes([r2], side, f)
  {
    LensesAppend([r1], [r2], side);
    FieldVotesAppend(Lenses([r1], side), Lenses([r2], side), f);
    assert [r1] + [r2] == [r1, r2];
  }

  lemma LensesOfOne(r: ImageResult, side: Side)
    ensures Lenses([r], side) == OptionSeq(LensOf(r, side))
  {
    assert [r][..0] == [];
  }

  lemma FieldVotesOfOne(l: Lens, f: Field)
    ensures FieldVotes([l], f) == OptionSeq(FieldOf(l, f))
  {
    assert [l][..0] == [];
  }

  lemma VoteOfOne(r: ImageResult, side: Side, f: Field)
    ensures Votes([r], side, f) ==
      if LensOf(r, side).Some? then OptionSeq(FieldOf(LensOf(r, side).value, f)) else []
  {
    LensesOfOne(r, side);
    if LensOf(r, side).Some? {
      FieldVotesOfOne(LensOf(r, side).value, f);
    }
  }

  lemma FirstOfTwo(a: string, b: string, w: string)
    requires IsPluralityWinner([a, b], w)
    ensures w == a
  {
  }

  /** With the single vote `v` for a field, `v` is chosen. */
  lemma ScalarOfOne(rs: seq<ImageResult>, side: Side, f: Field, v: string)
    requires Votes(rs, side, f) == [v]
    ensures Scalar(ProfileFor(Merge(rs), side), f) == v
  {
    ScalarIsPlurality(rs, side, f);
  }

  /** With votes `a` then `b` for a field, `a` is chosen. */
  lemma ScalarOfTwo(rs: seq<ImageResult>, side: Side, f: Field, a: string, b: string)
    requires Votes(rs, side, f) == [a, b]
    ensures Scalar(ProfileFor(Merge(rs), side), f) == a
  {
    ScalarIsPlurality(rs, side, f);
    FirstOfTwo(a, b, Scalar(ProfileFor(Merge(rs), side), f));
  }

  /** One vote each for `a` then `b`: the first seen wins the tie. */
  lemma TieGoesToFirstSeen(a: string, b: string)
    ensures Merge([AccurateOnly(EmptyLens.(name := Some(a))), AccurateOnly(EmptyLens.(name := Some(b)))]).accurate.name == a
  {
    var r1, r2 := AccurateOnly(EmptyLens.(name := Some(a))), AccurateOnly(EmptyLens.(name := Some(b)));
    VotesOfTwo(r1, r2, Accurate, Name);
    VoteOfOne(r1, Accurate, Name);
    VoteOfOne(r2, Accurate, Name);
    ScalarOfTwo([r1, r2], Accurate, Name, a, b);
  }

  lemma VotesOfThree(r1: ImageResult, r2: ImageResult, r3: ImageResult, side: Side, f: Field)
    ensures Votes([r1, r2, r3], side, f) == Votes([r1], side, f) + Votes([r2], side, f) + Votes([r3], side, f)
  {
    VotesOfTwo(r1, r2, side, f);
    LensesAppend([r1, r2], [r3], side);
    FieldVotesAppend(Lenses([r1, r2], side), Lenses([r3], side), f);
    assert [r1, r2] + [r3] == [r1, r2, r3];
  }

  lemma MajorityOfThree(x: string, y: string, w: string)
    requires IsPluralityWinner([x, x, y], w)
    ensures w == x
  {
    if x != y {
      assert Count([x, x, y], x) == 2;
    }
  }

  /** With votes `x`, `x`, `y` for a field, `x` is chosen. */
  lemma ScalarOfThree(rs: seq<ImageResult>, side: Side, f: Field, x: string, y: string)
    requires Votes(rs, side, f) == [x, x, y]
    ensures Scalar(ProfileFor(Merge(rs), side), f) == x
  {
    ScalarIsPlurality(rs, side, f);
    MajorityOfThree(x, y, Scalar(ProfileFor(Merge(rs), side), f));
  }

  /** Votes `x`, `x`, `y` for the dosage: the majority value wins. */
  lemma MajorityWins(x: string, y: string)
    ensures Merge([AccurateOnly(EmptyLens.(dosage := Some(x))), AccurateOnly(EmptyLens.(dosage := Some(x))),
                   AccurateOnly(EmptyLens.(dosage := Some(y)))]).accurate.dosage == x
  {
    var rx, ry := AccurateOnly(EmptyLens.(dosage := Some(x))), AccurateOnly(EmptyLens.(dosage := Some(y)));
    var rs := [rx, rx, ry];
    assert Votes(rs, Accurate, Dosage) == [x, x, y] by {
      VotesOfThree(rx, rx, ry, Accurate, Dosage);
      VoteOfOne(rx, Accurate, Dosage);
      VoteOfOne(ry, Accurate, Dosage);
    }
    ScalarOfThree(rs, Accurate, Dosage, x, y);
  }

  lemma SuppliedByTwo(r1: ImageResult, r2: ImageResult, side: Side, z: string)
    ensures SuppliedBySome([r1, r2], side, z) <==> z in SuppliedSideEffects(r1, side) || z in SuppliedSideEffects(r2, side)
  {
    var rs := [r1, r2];
    if z in SuppliedSideEffects(r1, side) {
      assert rs[0] == r1;
    }
    if z in SuppliedSideEffects(r2, side) {
      assert rs[1] == r2;
    }
  }

  /** Two results supplying `s1` and `s2`: the output holds each of their side
      effects once and nothing else. */
  lemma SideEffectsOfTwoLists(r1: ImageResult, r2: ImageResult, side: Side, s1: seq<string>, s2: seq<string>)
    requires SuppliedSideEffects(r1, side) == s1 && SuppliedSideEffects(r2, side) == s2
    ensures var out := ProfileFor(Merge([r1, r2]), side).sideEffects;
      && NoDuplicates(out)
      && (forall z :: z in out <==> z in s1 || z in s2)
  {
    SideEffectsAreUnion([r1, r2], side);
    forall z ensures SuppliedBySome([r1, r2], side, z) <==> z in s1 || z in s2 {
      SuppliedByTwo(r1, r2, side, z);
    }
  }

  /** Two results supplying `[x]` and `[x, y]` for the `accurate` lens: the output holds
      `x` and `y`, each once, and nothing else. */
  lemma SideEffectsOfTwo(r1: ImageResult, r2: ImageResult, x: string, y: string)
    requires SuppliedSideEffects(r1, Accurate) == [x] && SuppliedSideEffects(r2, Accurate) == [x, y]
    ensures var out := Merge([r1, r2]).accurate.sideEffects;
      && NoDuplicates(out)
      && (forall z :: z in out <==> z == x || z == y)
  {
    SideEffectsOfTwoLists(r1, r2, Accurate, [x], [x, y]);
    var out := ProfileFor(Merge([r1, r2]), Accurate).sideEffects;
    assert Merge([r1, r2]).accurate.sideEffects == out;
    forall z ensures z in out <==> z == x || z == y {
      assert z in [x, y] <==> z == x || z == y;
    }
  }

  /** Side effects `[x]` and `[x, y]` consolidate to the set {x, y}, each once. */
  lemma SideEffectsMerged(x: string, y: string)
    ensures var out := Merge([AccurateOnly(EmptyLens.(sideEffects := Some([x]))),
                              AccurateOnly(EmptyLens.(sideEffects := Some([x, y])))]).accurate.sideEffects;
      && NoDuplicates(out)
      && (forall z :: z in out <==> z == x || z == y)
  {
    SideEffectsOfTwo(AccurateOnly(EmptyLens.(sideEffects := Some([x]))),
                     AccurateOnly(EmptyLens.(sideEffects := Some([x, y]))), x, y);
  }

  /** `[{}]`: every scalar is "Unknown" and both side-effect lists are empty. */
  lemma EmptyDictIsAllUnknown()
    ensures Merge([Dict(None, None, false)]) == Merged(UnknownProfile, UnknownProfile)
  {
    NoContributionIsAllUnknown([Dict(None, None, false)]);
  }
}
