/** The canonical registry recipe: tokens sorted with their quantities, one root, and proofs lined up
    with the sorted tokens over any lawful Merkle tree. */
module RegistryRecipe {
  import opened Options
  import opened Permutations
  import opened Sorting

  /** A token address as the integer it is compared by, with its quantity. */
  type Pair = (nat, nat)

  // ---------- sorting by token ----------

  predicate Below(x: Pair, y: Pair) { x.0 < y.0 }

  predicate Ascending(s: seq<Pair>) {
    forall i, j :: 0 <= i < j < |s| ==> s[i].0 < s[j].0
  }

  predicate DistinctTokens(s: seq<Pair>) {
    forall i, j :: 0 <= i < j < |s| ==> s[i].0 != s[j].0
  }

  function SortByToken(s: seq<Pair>): seq<Pair> { SortBy(Below, s) }

  /** Strictly ascending, and a permutation of the pairs: each quantity stays with its token. */
  lemma SortIsCanonical(s: seq<Pair>)
    requires DistinctTokens(s)
    ensures Ascending(SortByToken(s)) && multiset(SortByToken(s)) == multiset(s)
  {
    SortKeeps(Below, s);
    SortInOrder(Below, s);
  }

  // ---------- an abstract Merkle tree ----------

  datatype Leaf = Leaf(token: nat, unitQty: nat, unitSize: nat)

  /** A tree over a list of leaves: its root, the order it enumerates them in (each with an index of
      its own choice), the proof for an index, and what a proof verifies. */
  datatype Merkle = Merkle(root: seq<Leaf> -> string, entries: seq<Leaf> -> seq<(nat, Leaf)>,
                           proof: (seq<Leaf>, nat) -> seq<string>, verifies: (string, Leaf, seq<string>) -> bool)

  /** Every leaf is enumerated, nothing else is, and the proofs it issues verify. */
  ghost predicate Lawful(m: Merkle, ls: seq<Leaf>) {
    && (forall l :: l in ls ==> exists e :: e in m.entries(ls) && e.1 == l)
    && (forall e :: e in m.entries(ls) ==> e.1 in ls && m.verifies(m.root(ls), e.1, m.proof(ls, e.0)))
  }

  /** Nor does one proof verify two leaves of the list. */
  ghost predicate Sound(m: Merkle, ls: seq<Leaf>) {
    forall x, y, p :: x in ls && y in ls && m.verifies(m.root(ls), x, p) && m.verifies(m.root(ls), y, p) ==> x == y
  }

  // ---------- genesis root and bootstrap proofs ----------

  datatype GenesisRecipe = GenesisRecipe(genesisRoot: string, sortedTokens: seq<nat>, sortedUnitQty: seq<nat>)

  function Pairs(tokens: seq<nat>, unitQty: seq<nat>): (ps: seq<Pair>)
    requires |unitQty| == |tokens|
    ensures |ps| == |tokens| && forall i :: 0 <= i < |tokens| ==> ps[i] == (tokens[i], unitQty[i])
  {
    seq(|tokens|, i requires 0 <= i < |tokens| => (tokens[i], unitQty[i]))
  }

  function Tokens(ps: seq<Pair>): (ts: seq<nat>)
    ensures |ts| == |ps| && forall i :: 0 <= i < |ps| ==> ts[i] == ps[i].0
  {
    seq(|ps|, i requires 0 <= i < |ps| => ps[i].0)
  }

  function Quantities(ps: seq<Pair>): (qs: seq<nat>)
    ensures |qs| == |ps| && forall i :: 0 <= i < |ps| ==> qs[i] == ps[i].1
  {
    seq(|ps|, i requires 0 <= i < |ps| => ps[i].1)
  }

  function Leaves(ps: seq<Pair>, unitSize: nat): (ls: seq<Leaf>)
    ensures |ls| == |ps| && forall i :: 0 <= i < |ps| ==> ls[i] == Leaf(ps[i].0, ps[i].1, unitSize)
  {
    seq(|ps|, i requires 0 <= i < |ps| => Leaf(ps[i].0, ps[i].1, unitSize))
  }

  /** The tree library refuses an empty list. */
  function BuildGenesisRoot(m: Merkle, tokens: seq<nat>, unitQty: seq<nat>, unitSize: nat): Option<GenesisRecipe>
    requires |unitQty| == |tokens|
  {
    if tokens == [] then None
    else
      var sorted := SortByToken(Pairs(tokens, unitQty));
      Some(GenesisRecipe(m.root(Leaves(sorted, unitSize)), Tokens(sorted), Quantities(sorted)))
  }

  /** Same sorted arrays and root, whatever order the recipe is given in. */
  lemma GenesisIgnoresOrder(m: Merkle, tokens: seq<nat>, unitQty: seq<nat>, tokens': seq<nat>, unitQty': seq<nat>,
                            unitSize: nat)
    requires |unitQty| == |tokens| && |unitQty'| == |tokens'|
    requires DistinctTokens(Pairs(tokens, unitQty)) && DistinctTokens(Pairs(tokens', unitQty'))
    requires multiset(Pairs(tokens, unitQty)) == multiset(Pairs(tokens', unitQty'))
    ensures BuildGenesisRoot(m, tokens, unitQty, unitSize) == BuildGenesisRoot(m, tokens', unitQty', unitSize)
  {
    var a, b := Pairs(tokens, unitQty), Pairs(tokens', unitQty');
    SortIsCanonical(a);
    SortIsCanonical(b);
    InOrderUnique(Below, SortByToken(a), SortByToken(b));
    SameLength(a, b);
  }

  /** The arrays are the input, strictly ascending by token, quantities still with their tokens. */
  lemma GenesisIsCanonical(m: Merkle, tokens: seq<nat>, unitQty: seq<nat>, unitSize: nat)
    requires |unitQty| == |tokens| && tokens != [] && DistinctTokens(Pairs(tokens, unitQty))
    ensures var g := BuildGenesisRoot(m, tokens, unitQty, unitSize).value;
            && |g.sortedTokens| == |g.sortedUnitQty| == |tokens|
            && (forall i, j :: 0 <= i < j < |tokens| ==> g.sortedTokens[i] < g.sortedTokens[j])
            && multiset(Pairs(g.sortedTokens, g.sortedUnitQty)) == multiset(Pairs(tokens, unitQty))
  {
    var ps := Pairs(tokens, unitQty);
    var sorted := SortByToken(ps);
    SortIsCanonical(ps);
    assert |multiset(sorted)| == |sorted| && |multiset(ps)| == |ps|;
    assert Pairs(Tokens(sorted), Quantities(sorted)) == sorted;
  }

  /** A repeated token repeats its quantity, too. */
  predicate OneQuantityPerToken(ps: seq<Pair>) {
    forall p, q :: p in ps && q in ps && p.0 == q.0 ==> p.1 == q.1
  }

  /** The proof verifies a leaf of the list that carries this token. */
  ghost predicate ProvesToken(m: Merkle, ls: seq<Leaf>, token: nat, proof: seq<string>) {
    exists l :: l in ls && l.token == token && m.verifies(m.root(ls), l, proof)
  }

  /** Every row's proof verifies the row's own leaf, as the bootstrap call checks it. */
  ghost predicate AllVerify(m: Merkle, g: GenesisRecipe, unitSize: nat, proofs: seq<seq<string>>)
    requires |g.sortedTokens| == |g.sortedUnitQty| == |proofs|
  {
    forall i :: 0 <= i < |proofs| ==>
      m.verifies(g.genesisRoot, Leaf(g.sortedTokens[i], g.sortedUnitQty[i], unitSize), proofs[i])
  }

  /** Proofs are filed under the token of each enumerated leaf, then read out in sorted order. Each
      verifies a leaf of its token, and rows of one token share one proof. All rows verify unless a token
      repeats with another quantity; over a sound tree they do not then. */
  method BuildBootstrapProofs(m: Merkle, tokens: seq<nat>, unitQty: seq<nat>, unitSize: nat)
    returns (g: Option<GenesisRecipe>, proofs: seq<seq<string>>)
    requires |unitQty| == |tokens|
    requires Lawful(m, Leaves(SortByToken(Pairs(tokens, unitQty)), unitSize))
    ensures g == BuildGenesisRoot(m, tokens, unitQty, unitSize)
    ensures g.Some? ==> |proofs| == |tokens| == |g.value.sortedTokens| == |g.value.sortedUnitQty|
    ensures g.Some? ==> forall i :: 0 <= i < |tokens| ==>
              ProvesToken(m, Leaves(SortByToken(Pairs(tokens, unitQty)), unitSize), g.value.sortedTokens[i], proofs[i])
    ensures g.Some? && OneQuantityPerToken(Pairs(tokens, unitQty)) ==> AllVerify(m, g.value, unitSize, proofs)
    ensures g.Some? && Sound(m, Leaves(SortByToken(Pairs(tokens, unitQty)), unitSize)) ==>
              (AllVerify(m, g.value, unitSize, proofs) <==> OneQuantityPerToken(Pairs(tokens, unitQty)))
    ensures g.Some? ==> forall i, j :: 0 <= i < j < |tokens| && g.value.sortedTokens[i] == g.value.sortedTokens[j] ==>
              proofs[i] == proofs[j]
  {
    if tokens == [] {
      return None, [];
    }
    var ps := Pairs(tokens, unitQty);
    var sorted := SortByToken(ps);
    SortKeeps(Below, ps);
    SameLength(ps, sorted);
    var leaves := Leaves(sorted, unitSize);
    var proofByToken := FileProofs(m, leaves);
    g := Some(GenesisRecipe(m.root(leaves), Tokens(sorted), Quantities(sorted)));
    proofs := ReadProofs(leaves, proofByToken);
    if OneQuantityPerToken(ps) {
      OneLeafPerToken(ps, sorted, unitSize);
    }
    if Sound(m, leaves) && AllVerify(m, g.value, unitSize, proofs) {
      OneProofOneQuantity(m, ps, sorted, unitSize, proofs);
    }
  }

  /** Rows of one token with one proof between them, all verified by a sound tree, are one row. */
  lemma OneProofOneQuantity(m: Merkle, ps: seq<Pair>, sorted: seq<Pair>, unitSize: nat, proofs: seq<seq<string>>)
    requires multiset(sorted) == multiset(ps) && |proofs| == |sorted|
    requires Sound(m, Leaves(sorted, unitSize))
    requires forall i :: 0 <= i < |sorted| ==>
               m.verifies(m.root(Leaves(sorted, unitSize)), Leaves(sorted, unitSize)[i], proofs[i])
    requires forall i, j :: 0 <= i < j < |sorted| && sorted[i].0 == sorted[j].0 ==> proofs[i] == proofs[j]
    ensures OneQuantityPerToken(ps)
  {
    var ls := Leaves(sorted, unitSize);
    forall p, q | p in ps && q in ps && p.0 == q.0 ensures p.1 == q.1 {
      assert p in multiset(sorted) && q in multiset(sorted);
      var i :| 0 <= i < |sorted| && sorted[i] == p;
      var j :| 0 <= j < |sorted| && sorted[j] == q;
      assert ls[i] in ls && ls[j] in ls && proofs[i] == proofs[j];
    }
  }

  // ---------- a tree there is ----------

  function Tally(n: nat): string { seq(n, _ => '1') }

  /** A proof that is the leaf itself, and a tree that enumerates its leaves backwards. */
  function Plain(l: Leaf): seq<string> { [Tally(l.token), Tally(l.unitQty), Tally(l.unitSize)] }

  function Backwards(ls: seq<Leaf>): seq<(nat, Leaf)> {
    seq(|ls|, i requires 0 <= i < |ls| => (|ls| - 1 - i, ls[|ls| - 1 - i]))
  }

  const PLAIN_TREE := Merkle(_ => "", Backwards, (ls, i) => if 0 <= i < |ls| then Plain(ls[i]) else [],
                             (_, l, p) => p == Plain(l))

  lemma PlainTells(x: Leaf, y: Leaf)
    requires Plain(x) == Plain(y)
    ensures x == y
  {
    assert |Plain(x)[0]| == x.token && |Plain(x)[1]| == x.unitQty && |Plain(x)[2]| == x.unitSize;
    assert |Plain(y)[0]| == y.token && |Plain(y)[1]| == y.unitQty && |Plain(y)[2]| == y.unitSize;
  }

  /** The laws can be met, for every list of leaves. */
  lemma PlainTreeIsSound(ls: seq<Leaf>)
    ensures Lawful(PLAIN_TREE, ls) && Sound(PLAIN_TREE, ls)
  {
    var es := PLAIN_TREE.entries(ls);
    forall l | l in ls ensures exists e :: e in es && e.1 == l {
      var i :| 0 <= i < |ls| && ls[i] == l;
      assert es[|ls| - 1 - i] == (i, l) && es[|ls| - 1 - i] in es;
    }
    forall x, y, p | x in ls && y in ls && PLAIN_TREE.verifies(PLAIN_TREE.root(ls), x, p) &&
                     PLAIN_TREE.verifies(PLAIN_TREE.root(ls), y, p)
      ensures x == y
    {
      PlainTells(x, y);
    }
  }

  /** A token with two quantities: bootstrapped over such a tree, some row's proof is refused. */
  method RepeatedTokenFails(token: nat, unitSize: nat) returns (g: GenesisRecipe, proofs: seq<seq<string>>)
    ensures |g.sortedTokens| == |g.sortedUnitQty| == |proofs| == 2
    ensures !AllVerify(PLAIN_TREE, g, unitSize, proofs)
  {
    var tokens, unitQty := [token, token], [1, 2];
    var ps := Pairs(tokens, unitQty);
    PlainTreeIsSound(Leaves(SortByToken(ps), unitSize));
    var made;
    made, proofs := BuildBootstrapProofs(PLAIN_TREE, tokens, unitQty, unitSize);
    g := made.value;
    assert ps[0] in ps && ps[1] in ps && ps[0].1 != ps[1].1;
  }

  method FileProofs(m: Merkle, ls: seq<Leaf>) returns (proofByToken: map<nat, seq<string>>)
    requires Lawful(m, ls)
    ensures forall l :: l in ls ==> l.token in proofByToken && ProvesToken(m, ls, l.token, proofByToken[l.token])
  {
    var es := m.entries(ls);
    proofByToken := map[];
    var k := 0;
    while k < |es|
      invariant 0 <= k <= |es|
      invariant forall j :: 0 <= j < k ==> es[j].1.token in proofByToken
      invariant forall t :: t in proofByToken ==> ProvesToken(m, ls, t, proofByToken[t])
    {
      assert es[k] in es;
      proofByToken := proofByToken[es[k].1.token := m.proof(ls, es[k].0)];
      k := k + 1;
    }
    forall l | l in ls ensures l.token in proofByToken {
      var e :| e in es && e.1 == l;
      var j :| 0 <= j < |es| && es[j] == e;
    }
  }

  lemma OneLeafPerToken(ps: seq<Pair>, sorted: seq<Pair>, unitSize: nat)
    requires OneQuantityPerToken(ps) && multiset(sorted) == multiset(ps)
    ensures var ls := Leaves(sorted, unitSize);
            forall x, y :: x in ls && y in ls && x.token == y.token ==> x == y
  {
    var ls := Leaves(sorted, unitSize);
    forall x, y | x in ls && y in ls && x.token == y.token ensures x == y {
      var i :| 0 <= i < |ls| && ls[i] == x;
      var j :| 0 <= j < |ls| && ls[j] == y;
      assert sorted[i] in multiset(ps) && sorted[j] in multiset(ps);
    }
  }

  method ReadProofs(ls: seq<Leaf>, proofByToken: map<nat, seq<string>>) returns (proofs: seq<seq<string>>)
    requires forall l :: l in ls ==> l.token in proofByToken
    ensures |proofs| == |ls|
    ensures forall i :: 0 <= i < |ls| ==> ls[i].token in proofByToken && proofs[i] == proofByToken[ls[i].token]
  {
    proofs := [];
    var i := 0;
    while i < |ls|
      invariant 0 <= i <= |ls| && |proofs| == i
      invariant forall j :: 0 <= j < i ==> ls[j].token in proofByToken && proofs[j] == proofByToken[ls[j].token]
    {
      assert ls[i] in ls;
      proofs := proofs + [proofByToken[ls[i].token]];
      i := i + 1;
    }
  }
}
