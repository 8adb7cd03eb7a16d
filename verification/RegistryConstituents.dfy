/** Constituent rows of registry vaults: what one replacement leaves, and which scheduled recipe a
    block range selects. */
module RegistryConstituents {
  import opened Options
  import opened IndexerTypes

  type Rows = map<(Address, Address), nat>

  function Tokens(r: Recipe): set<Address> { set i | 0 <= i < |r| :: r[i].0 }

  /** One upsert per constituent, in recipe order. */
  function UpsertRows(m: Rows, v: Address, r: Recipe): Rows
    decreases |r|
  {
    if r == [] then m else UpsertRows(m[(v, r[0].0) := r[0].1], v, r[1..])
  }

  /** `deleteMany` of the vault's rows whose token is not in the recipe. */
  function Prune(m: Rows, v: Address, r: Recipe): Rows {
    map k | k in m && (k.0 == v ==> k.1 in Tokens(r)) :: m[k]
  }

  function Replace(m: Rows, v: Address, r: Recipe): Rows {
    UpsertRows(Prune(m, v, r), v, r)
  }

  /** The constituent set of one vault. */
  function RowsOf(m: Rows, v: Address): map<Address, nat> {
    var tokens := set k | k in m && k.0 == v :: k.1;
    map t | t in tokens :: m[(v, t)]
  }

  /** A recipe as a set of constituents; a token listed twice keeps its last quantity. */
  function RecipeMap(r: Recipe): map<Address, nat> {
    if r == [] then map[] else map[r[0].0 := r[0].1] + RecipeMap(r[1..])
  }

  lemma RowsOfLookup(m: Rows, v: Address, t: Address)
    ensures Lookup(RowsOf(m, v), t) == Lookup(m, (v, t))
  {
    var tokens := set k | k in m && k.0 == v :: k.1;
    if (v, t) in m {
      assert t in tokens;
    }
  }

  lemma {:induction false} UpsertRowsLookup(m: Rows, v: Address, r: Recipe, k: (Address, Address))
    ensures Lookup(UpsertRows(m, v, r), k) ==
            if k.0 == v && k.1 in RecipeMap(r) then Some(RecipeMap(r)[k.1]) else Lookup(m, k)
    decreases |r|
  {
    if r == [] {
    } else {
      UpsertRowsLookup(m[(v, r[0].0) := r[0].1], v, r[1..], k);
    }
  }

  lemma {:induction false} RecipeMapKeys(r: Recipe)
    ensures RecipeMap(r).Keys == Tokens(r)
  {
    if r == [] {
    } else {
      RecipeMapKeys(r[1..]);
      assert Tokens(r) == {r[0].0} + Tokens(r[1..]) by {
        forall t | t in Tokens(r) ensures t in {r[0].0} + Tokens(r[1..]) {
          var i :| 0 <= i < |r| && r[i].0 == t;
          if i > 0 { assert r[1..][i - 1].0 == t; }
        }
        forall t | t in Tokens(r[1..]) ensures t in Tokens(r) {
          var i :| 0 <= i < |r[1..]| && r[1..][i].0 == t;
          assert r[i + 1].0 == t;
        }
      }
    }
  }

  // ---------- a recipe read entry by entry ----------

  predicate LastEntry(r: Recipe, t: Address, i: nat) { forall j :: i < j < |r| ==> r[j].0 != t }

  /** The recipe lists the token, the last time with this quantity. */
  predicate Listed(r: Recipe, t: Address, q: nat) {
    exists i :: 0 <= i < |r| && r[i] == (t, q) && LastEntry(r, t, i)
  }

  predicate Unlisted(r: Recipe, t: Address) { forall i :: 0 <= i < |r| ==> r[i].0 != t }

  lemma ListedCons(r: Recipe, t: Address, q: nat)
    requires r != []
    ensures Listed(r, t, q) <==> Listed(r[1..], t, q) || (r[0] == (t, q) && Unlisted(r[1..], t))
    ensures Unlisted(r, t) <==> r[0].0 != t && Unlisted(r[1..], t)
  {
    var rest := r[1..];
    if i :| 0 <= i < |rest| && rest[i] == (t, q) && LastEntry(rest, t, i) {
      forall j | i + 1 < j < |r| ensures r[j].0 != t {
        assert rest[j - 1] == r[j];
      }
      assert r[i + 1] == (t, q) && LastEntry(r, t, i + 1);
    }
    if i :| 0 <= i < |r| && r[i] == (t, q) && LastEntry(r, t, i) {
      forall j | i - 1 < j < |rest| ensures rest[j].0 != t {
        assert rest[j] == r[j + 1];
      }
      if i > 0 {
        assert rest[i - 1] == (t, q) && LastEntry(rest, t, i - 1);
      }
    }
    if r[0] == (t, q) && Unlisted(rest, t) {
      forall j | 0 < j < |r| ensures r[j].0 != t {
        assert rest[j - 1] == r[j];
      }
      assert LastEntry(r, t, 0);
    }
    assert forall j :: 0 < j < |r| ==> r[j] == rest[j - 1];
  }

  /** A recipe's constituents are the listed tokens with the last quantity of each. */
  lemma {:induction false} RecipeMapLists(r: Recipe, t: Address, q: nat)
    ensures Lookup(RecipeMap(r), t) == Some(q) <==> Listed(r, t, q)
    ensures t !in RecipeMap(r) <==> Unlisted(r, t)
  {
    if r == [] {
    } else {
      RecipeMapLists(r[1..], t, q);
      ListedCons(r, t, q);
    }
  }

  /** Replacing leaves exactly the recipe: dropped tokens are gone, other vaults untouched. */
  lemma ReplaceIsExact(m: Rows, v: Address, r: Recipe, u: Address)
    ensures RowsOf(Replace(m, v, r), u) == if u == v then RecipeMap(r) else RowsOf(m, u)
  {
    RecipeMapKeys(r);
    var target := if u == v then RecipeMap(r) else RowsOf(m, u);
    forall t ensures Lookup(RowsOf(Replace(m, v, r), u), t) == Lookup(target, t) {
      RowsOfLookup(Replace(m, v, r), u, t);
      UpsertRowsLookup(Prune(m, v, r), v, r, (u, t));
      RowsOfLookup(m, u, t);
    }
    SameMap(RowsOf(Replace(m, v, r), u), target);
  }

  /** Creating a basket touches no other vault's rows. */
  lemma UpsertLeavesOthers(m: Rows, v: Address, r: Recipe, u: Address)
    requires u != v || r == []
    ensures RowsOf(UpsertRows(m, v, r), u) == RowsOf(m, u)
  {
    forall t ensures Lookup(RowsOf(UpsertRows(m, v, r), u), t) == Lookup(RowsOf(m, u), t) {
      RowsOfLookup(UpsertRows(m, v, r), u, t);
      UpsertRowsLookup(m, v, r, (u, t));
      RowsOfLookup(m, u, t);
    }
    SameMap(RowsOf(UpsertRows(m, v, r), u), RowsOf(m, u));
  }

  lemma NonEmptyRecipe(r: Recipe)
    requires r != []
    ensures RecipeMap(r) != map[]
  {
    assert r[0].0 in RecipeMap(r);
  }

  // ---------- scheduled recipes in a block range ----------

  predicate InRange(l: RecipeLog, v: Address, from: int, to: int) {
    l.vault == v && from <= l.block <= to
  }

  /** The last RootScheduled log of a vault in a block range. */
  function NewestIn(ls: seq<RecipeLog>, v: Address, from: int, to: int): (r: Option<RecipeLog>)
    ensures r.Some? ==> r.value in ls && InRange(r.value, v, from, to)
    ensures r.None? ==> forall l :: l in ls ==> !InRange(l, v, from, to)
  {
    if ls == [] then None
    else if InRange(ls[|ls| - 1], v, from, to) then Some(ls[|ls| - 1])
    else
      var r := NewestIn(ls[..|ls| - 1], v, from, to);
      assert forall l :: l in ls ==> l in ls[..|ls| - 1] || l == ls[|ls| - 1];
      r
  }

  /** Chain order of logs: by block, then by index in the block. */
  predicate Before(a: RecipeLog, b: RecipeLog) {
    a.block < b.block || (a.block == b.block && a.logIndex < b.logIndex)
  }

  predicate InChainOrder(ls: seq<RecipeLog>) {
    forall i, j :: 0 <= i < j < |ls| ==> Before(ls[i], ls[j])
  }

  /** The newest recipe of a range is the newest of its later part, if that has one. */
  lemma {:induction false} NewestSplits(ls: seq<RecipeLog>, v: Address, from: int, mid: int, to: int)
    requires InChainOrder(ls) && from <= mid + 1 && mid <= to
    ensures NewestIn(ls, v, from, to) ==
            if NewestIn(ls, v, mid + 1, to).Some? then NewestIn(ls, v, mid + 1, to) else NewestIn(ls, v, from, mid)
  {
    if ls == [] {
    } else {
      var pre, last := ls[..|ls| - 1], ls[|ls| - 1];
      NewestSplits(pre, v, from, mid, to);
      if InRange(last, v, from, mid) {
        forall l | l in pre ensures !InRange(l, v, mid + 1, to) {
          var i :| 0 <= i < |pre| && pre[i] == l;
          assert Before(ls[i], last);
        }
      }
    }
  }

  /** The registry vaults that schedule in a range, in order of first appearance. */
  function Scheduling(ls: seq<RecipeLog>, reg: set<Address>, from: int, to: int): seq<Address> {
    if ls == [] then []
    else
      var vs, last := Scheduling(ls[..|ls| - 1], reg, from, to), ls[|ls| - 1];
      if last.vault in reg && from <= last.block <= to && last.vault !in vs then vs + [last.vault] else vs
  }

  lemma {:induction false} SchedulingMembers(ls: seq<RecipeLog>, reg: set<Address>, from: int, to: int)
    ensures forall v :: v in Scheduling(ls, reg, from, to) <==> v in reg && NewestIn(ls, v, from, to).Some?
  {
    if ls == [] {
    } else {
      SchedulingMembers(ls[..|ls| - 1], reg, from, to);
    }
  }

  datatype Update = Update(vault: Address, recipe: Recipe)

  /** What getRegistryRecipeLogs returns: per vault, the newest recipe of the range. */
  function RecipeUpdates(ls: seq<RecipeLog>, reg: set<Address>, from: int, to: int): seq<Update> {
    SchedulingMembers(ls, reg, from, to);
    var vs := Scheduling(ls, reg, from, to);
    seq(|vs|, i requires 0 <= i < |vs| =>
      assert vs[i] in vs;
      Update(vs[i], NewestIn(ls, vs[i], from, to).value.recipe))
  }

  /** Each registry vault that scheduled in the range gets one update, its newest recipe; no other
      vault gets any. */
  lemma RecipeUpdatesExact(ls: seq<RecipeLog>, reg: set<Address>, from: int, to: int)
    ensures forall u :: u in RecipeUpdates(ls, reg, from, to) ==>
              u.vault in reg && NewestIn(ls, u.vault, from, to).Some? &&
              u.recipe == NewestIn(ls, u.vault, from, to).value.recipe
    ensures forall v :: v in reg && NewestIn(ls, v, from, to).Some? ==>
              Update(v, NewestIn(ls, v, from, to).value.recipe) in RecipeUpdates(ls, reg, from, to)
  {
    SchedulingMembers(ls, reg, from, to);
    var vs := Scheduling(ls, reg, from, to);
    var us := RecipeUpdates(ls, reg, from, to);
    forall u | u in us
      ensures u.vault in reg && NewestIn(ls, u.vault, from, to).Some? &&
              u.recipe == NewestIn(ls, u.vault, from, to).value.recipe
    {
      var i :| 0 <= i < |us| && us[i] == u;
      assert vs[i] in vs;
    }
    forall v | v in reg && NewestIn(ls, v, from, to).Some?
      ensures Update(v, NewestIn(ls, v, from, to).value.recipe) in us
    {
      var i :| 0 <= i < |vs| && vs[i] == v;
      assert us[i] == Update(v, NewestIn(ls, v, from, to).value.recipe);
    }
  }

  // ---------- empty recipes ----------

  /** The newest recipe of a range that lists at least one token. */
  function NewestNonEmptyIn(ls: seq<RecipeLog>, v: Address, from: int, to: int): (r: Option<RecipeLog>)
    ensures r.Some? ==> r.value in ls && InRange(r.value, v, from, to) && r.value.recipe != []
    ensures r.None? ==> forall l :: l in ls && InRange(l, v, from, to) ==> l.recipe == []
  {
    if ls == [] then None
    else if InRange(ls[|ls| - 1], v, from, to) && ls[|ls| - 1].recipe != [] then Some(ls[|ls| - 1])
    else
      var r := NewestNonEmptyIn(ls[..|ls| - 1], v, from, to);
      assert forall l :: l in ls ==> l in ls[..|ls| - 1] || l == ls[|ls| - 1];
      r
  }

  lemma {:induction false} NewestIsNonEmpty(ls: seq<RecipeLog>, v: Address, from: int, to: int)
    requires NewestIn(ls, v, from, to).Some? && NewestIn(ls, v, from, to).value.recipe != []
    ensures NewestNonEmptyIn(ls, v, from, to) == NewestIn(ls, v, from, to)
  {
    if InRange(ls[|ls| - 1], v, from, to) {
    } else {
      NewestIsNonEmpty(ls[..|ls| - 1], v, from, to);
    }
  }

  /** The rows one range leaves: an empty newest recipe is skipped, whatever came before it. */
  function RangeOutcome(rows: map<Address, nat>, ls: seq<RecipeLog>, v: Address, from: int, to: int)
    : map<Address, nat>
  {
    var n := NewestIn(ls, v, from, to);
    if n.Some? && n.value.recipe != [] then RecipeMap(n.value.recipe) else rows
  }

  /** The rows "the newest recipe that is not empty" asks for. */
  function IntendedOutcome(rows: map<Address, nat>, ls: seq<RecipeLog>, v: Address, from: int, to: int)
    : map<Address, nat>
  {
    var n := NewestNonEmptyIn(ls, v, from, to);
    if n.Some? then RecipeMap(n.value.recipe) else rows
  }

  /** The two agree exactly when no empty recipe hides a different earlier one of the same range. */
  lemma {:induction false} EmptyRecipeHidesIff(rows: map<Address, nat>, ls: seq<RecipeLog>, v: Address, from: int,
                                               to: int)
    ensures RangeOutcome(rows, ls, v, from, to) == IntendedOutcome(rows, ls, v, from, to) <==>
            var n, e := NewestIn(ls, v, from, to), NewestNonEmptyIn(ls, v, from, to);
            n == e || e.None? || RecipeMap(e.value.recipe) == rows
  {
    if NewestIn(ls, v, from, to).Some? && NewestIn(ls, v, from, to).value.recipe != [] {
      NewestIsNonEmpty(ls, v, from, to);
    }
  }

  /** So with empty recipes the outcome depends on how blocks fall into ticks: one recipe at block
      1, an empty one at block 2. */
  lemma EmptyRecipeSplitMatters(v: Address, token: Address)
    ensures var ls := [RecipeLog(v, [(token, 1)], 1, 0), RecipeLog(v, [], 2, 0)];
            && RangeOutcome(RangeOutcome(map[], ls, v, 1, 1), ls, v, 2, 2) == map[token := 1]
            && RangeOutcome(map[], ls, v, 1, 2) == map[]
  {
    var a, b := RecipeLog(v, [(token, 1)], 1, 0), RecipeLog(v, [], 2, 0);
    var ls := [a, b];
    assert ls[..1] == [a];
    assert NewestIn(ls, v, 1, 1) == NewestIn([a], v, 1, 1) == Some(a);
    assert [(token, 1)][1..] == [];
    assert RecipeMap([(token, 1)]) == map[token := 1];
  }
}
