/**
 * Picking one edge per (from, to, kind) triple by a score, ties going to the smaller key.
 * The score is a parameter here.
 */
module Triples {
  import opened Basics
  import opened ByteOrder
  import opened GraphTypes

  type Edges = map<string, Edge>

  datatype Triple = Triple(fromVid: string, toVid: string, kind: string)

  function TripleOf(e: Edge): Triple {
    Triple(e.fromVid, e.toVid, e.kind)
  }

  ghost function TriplesOf(edges: Edges): set<Triple> {
    set k | k in edges :: TripleOf(edges[k])
  }

  ghost predicate OnePerTriple(edges: Edges) {
    forall j, k :: j in edges && k in edges && TripleOf(edges[j]) == TripleOf(edges[k]) ==> j == k
  }

  ghost predicate Ahead(score: Edge -> int, edges: Edges, k: string, j: string)
    requires k in edges && j in edges
  {
    score(edges[k]) > score(edges[j]) || (score(edges[k]) == score(edges[j]) && Less(k, j))
  }

  ghost predicate Leads(score: Edge -> int, edges: Edges, k: string, among: set<string>)
    requires k in edges && among <= edges.Keys
  {
    forall j :: j in among && j != k && TripleOf(edges[j]) == TripleOf(edges[k]) ==> Ahead(score, edges, k, j)
  }

  ghost function Leaders(score: Edge -> int, edges: Edges): Edges {
    map k | k in edges && Leads(score, edges, k, edges.Keys) :: edges[k]
  }

  lemma AheadIsTransitive(score: Edge -> int, edges: Edges, a: string, b: string, c: string)
    requires a in edges && b in edges && c in edges
    requires Ahead(score, edges, a, b) && Ahead(score, edges, b, c)
    ensures Ahead(score, edges, a, c)
  {
    if Less(a, b) && Less(b, c) { LessIsTransitive(a, b, c); }
  }

  lemma AheadIsTotal(score: Edge -> int, edges: Edges, a: string, b: string)
    requires a in edges && b in edges
    ensures a == b || Ahead(score, edges, a, b) || Ahead(score, edges, b, a)
    ensures !(Ahead(score, edges, a, b) && Ahead(score, edges, b, a))
  {
    LessIsTotal(a, b);
    LessIsStrict(a);
    if Less(a, b) && Less(b, a) { LessIsTransitive(a, b, a); }
  }

  /** Among finitely many keys, some key of a triple leads that triple. */
  lemma {:induction false} LeaderExists(score: Edge -> int, edges: Edges, k: string, among: set<string>)
    returns (w: string)
    requires k in among && among <= edges.Keys
    ensures w in among && TripleOf(edges[w]) == TripleOf(edges[k]) && Leads(score, edges, w, among)
    decreases |among|
  {
    if among == {k} {
      w := k;
    } else {
      var x :| x in among && x != k;
      var v := LeaderExists(score, edges, k, among - {x});
      if TripleOf(edges[x]) != TripleOf(edges[k]) || Ahead(score, edges, v, x) {
        w := v;
      } else {
        w := x;
        AheadIsTotal(score, edges, v, x);
        forall j | j in among && j != x && TripleOf(edges[j]) == TripleOf(edges[x]) ensures Ahead(score, edges, x, j) {
          if j != v { AheadIsTransitive(score, edges, x, v, j); }
        }
      }
    }
  }

  lemma LeadersKeepTriples(score: Edge -> int, edges: Edges)
    ensures TriplesOf(Leaders(score, edges)) == TriplesOf(edges)
  {
    forall k | k in edges ensures TripleOf(edges[k]) in TriplesOf(Leaders(score, edges)) {
      var w := LeaderExists(score, edges, k, edges.Keys);
      assert w in Leaders(score, edges);
    }
  }

  lemma LeadersAreOnePerTriple(score: Edge -> int, edges: Edges)
    ensures OnePerTriple(Leaders(score, edges))
  {
    forall j, k | j in Leaders(score, edges) && k in Leaders(score, edges) && TripleOf(edges[j]) == TripleOf(edges[k])
      ensures j == k
    {
      AheadIsTotal(score, edges, j, k);
    }
  }

  lemma OnePerTripleIsFixed(score: Edge -> int, edges: Edges)
    requires OnePerTriple(edges)
    ensures Leaders(score, edges) == edges
  {
    assert forall k :: k in edges ==> Leads(score, edges, k, edges.Keys);
  }

  // The passes.

  datatype Scored = Scored(key: string, triple: Triple, score: int)

  datatype Best = Best(key: string, score: int)

  function ScoredAt(score: Edge -> int, edges: Edges, k: string): Scored
    requires k in edges
  {
    Scored(k, TripleOf(edges[k]), score(edges[k]))
  }

  ghost predicate BestOk(score: Edge -> int, edges: Edges, t: Triple, b: Best, seen: set<string>)
    requires seen <= edges.Keys
  {
    b.key in seen && TripleOf(edges[b.key]) == t && b.score == score(edges[b.key]) && Leads(score, edges, b.key, seen)
  }

  ghost predicate Tracks(score: Edge -> int, edges: Edges, best: map<Triple, Best>, seen: set<string>)
    requires seen <= edges.Keys
  {
    && (forall k :: k in seen ==> TripleOf(edges[k]) in best)
    && (forall t :: t in best ==> BestOk(score, edges, t, best[t], seen))
  }

  function Improve(best: map<Triple, Best>, s: Scored): map<Triple, Best> {
    if s.triple in best && best[s.triple].score >= s.score then best else best[s.triple := Best(s.key, s.score)]
  }

  lemma TracksNext(score: Edge -> int, edges: Edges, best: map<Triple, Best>, seen: set<string>, k: string)
    requires k in edges && k !in seen && seen <= edges.Keys && Tracks(score, edges, best, seen)
    requires forall j :: j in seen ==> Less(j, k)
    ensures Tracks(score, edges, Improve(best, ScoredAt(score, edges, k)), seen + {k})
  {
    var t := TripleOf(edges[k]);
    var next := Improve(best, ScoredAt(score, edges, k));
    forall u | u in next ensures BestOk(score, edges, u, next[u], seen + {k}) {
      if u in best { assert BestOk(score, edges, u, best[u], seen); }
      if u == t && t in best && next[t].key == k {
        var w := best[t].key;
        forall j | j in seen && TripleOf(edges[j]) == t ensures Ahead(score, edges, k, j) {
          if j != w { AheadIsTransitive(score, edges, k, w, j); }
        }
      }
    }
  }

  lemma TrackedLeads(score: Edge -> int, edges: Edges, best: map<Triple, Best>, k: string)
    requires k in edges && Tracks(score, edges, best, edges.Keys)
    ensures Leads(score, edges, k, edges.Keys) <==> best[TripleOf(edges[k])].key == k
  {
    var t := TripleOf(edges[k]);
    assert BestOk(score, edges, t, best[t], edges.Keys);
    AheadIsTotal(score, edges, best[t].key, k);
  }

  ghost predicate AllScored(score: Edge -> int, edges: Edges, keys: seq<string>, scored: seq<Scored>) {
    && |scored| <= |keys|
    && (forall i :: 0 <= i < |scored| ==> keys[i] in edges && scored[i] == ScoredAt(score, edges, keys[i]))
  }

  lemma KeysAreEdges(edges: Edges, keys: seq<string>)
    requires Elements(keys) == edges.Keys
    ensures forall i :: 0 <= i < |keys| ==> keys[i] in edges
  {
    forall i | 0 <= i < |keys| ensures keys[i] in edges { assert keys[i] in Elements(keys); }
  }

  method ScoreAll(score: Edge -> int, edges: Edges, keys: seq<string>) returns (scored: seq<Scored>)
    requires Elements(keys) == edges.Keys
    ensures |scored| == |keys| && AllScored(score, edges, keys, scored)
  {
    KeysAreEdges(edges, keys);
    scored := [];
    for i := 0 to |keys|
      invariant |scored| == i && AllScored(score, edges, keys, scored)
    {
      scored := scored + [ScoredAt(score, edges, keys[i])];
    }
  }

  lemma PrefixNext(edges: Edges, keys: seq<string>, i: nat)
    requires Ascending(keys) && Elements(keys) == edges.Keys && i < |keys|
    ensures Elements(keys[..i]) <= edges.Keys && keys[i] in edges && keys[i] !in Elements(keys[..i])
    ensures Elements(keys[..i + 1]) == Elements(keys[..i]) + {keys[i]}
    ensures forall j :: j in Elements(keys[..i]) ==> Less(j, keys[i])
  {
    KeysAreEdges(edges, keys);
    LessIsStrict(keys[i]);
    assert keys[..i + 1] == keys[..i] + [keys[i]];
    ElementsConcat(keys[..i], [keys[i]]);
    assert Elements([keys[i]]) == {keys[i]};
  }

  /** A later edge replaces the leader of its triple only with a strictly greater score. */
  method PickWinners(score: Edge -> int, edges: Edges, ghost keys: seq<string>, scored: seq<Scored>)
    returns (best: map<Triple, Best>)
    requires Ascending(keys) && Elements(keys) == edges.Keys
    requires |scored| == |keys| && AllScored(score, edges, keys, scored)
    ensures Tracks(score, edges, best, edges.Keys)
  {
    best := map[];
    assert Elements(keys[..0]) == {};
    for i := 0 to |scored|
      invariant Elements(keys[..i]) <= edges.Keys
      invariant Tracks(score, edges, best, Elements(keys[..i]))
    {
      PrefixNext(edges, keys, i);
      TracksNext(score, edges, best, Elements(keys[..i]), keys[i]);
      var s := scored[i];
      if !(s.triple in best && best[s.triple].score >= s.score) {
        best := best[s.triple := Best(s.key, s.score)];
      }
    }
    assert keys[..|keys|] == keys;
  }

  function KeysOf(best: map<Triple, Best>): set<string> {
    set t | t in best :: best[t].key
  }

  lemma KeptLeads(score: Edge -> int, edges: Edges, best: map<Triple, Best>, k: string)
    requires k in edges && Tracks(score, edges, best, edges.Keys)
    ensures k in KeysOf(best) <==> Leads(score, edges, k, edges.Keys)
  {
    TrackedLeads(score, edges, best, k);
    if k in KeysOf(best) {
      var t :| t in best && best[t].key == k;
      assert BestOk(score, edges, t, best[t], edges.Keys);
    }
  }

  function Retain(edges: Edges, kept: set<string>): Edges {
    map k | k in edges && k in kept :: edges[k]
  }

  lemma RetainedAreLeaders(score: Edge -> int, edges: Edges, best: map<Triple, Best>)
    requires Tracks(score, edges, best, edges.Keys)
    ensures Retain(edges, KeysOf(best)) == Leaders(score, edges)
  {
    forall k | k in edges ensures k in KeysOf(best) <==> Leads(score, edges, k, edges.Keys) {
      KeptLeads(score, edges, best, k);
    }
  }

  /** Score every edge, pick a winner per triple, retain the winners. */
  method RetainWinners(score: Edge -> int, edges: Edges) returns (r: Edges)
    ensures r == Leaders(score, edges)
  {
    var keys := Sorted(edges.Keys);
    var scored := ScoreAll(score, edges, keys);
    var best := PickWinners(score, edges, keys, scored);
    r := Retain(edges, KeysOf(best));
    RetainedAreLeaders(score, edges, best);
  }
}

/**
 * Reconciling provenance.  Which edge survives is said by `Outranks`, without the combined score
 * that the passes compare.
 */
module Reconcile {
  import opened Basics
  import opened ByteOrder
  import opened GraphTypes
  import opened Triples

  function Truncate(x: real): int {
    if x >= 0.0 then x.Floor else -(-x).Floor
  }

  function PerMille(e: Edge): int {
    match Property(e.properties, "confidence")
    case Dbl(Finite(value)) => Truncate(value * 1000.0)
    case _ => 0
  }

  function Bonus(e: Edge): nat {
    match Property(e.properties, "provenance")
    case Text(s) => if s == "scip" then 5 else if s == "tree-sitter" then 3 else if s == "heuristic" then 1 else 0
    case _ => 0
  }

  /** The two parts packed into one number. */
  function Score(e: Edge): int {
    PerMille(e) * 10 + Bonus(e)
  }

  /** Greater per-mille confidence, then greater provenance bonus, then smaller key. */
  ghost predicate Outranks(edges: Edges, k: string, j: string)
    requires k in edges && j in edges
  {
    var a, b := edges[k], edges[j];
    || PerMille(a) > PerMille(b)
    || (PerMille(a) == PerMille(b) && Bonus(a) > Bonus(b))
    || (PerMille(a) == PerMille(b) && Bonus(a) == Bonus(b) && Less(k, j))
  }

  ghost predicate Survives(edges: Edges, k: string) {
    && k in edges
    && forall j :: j in edges && j != k && TripleOf(edges[j]) == TripleOf(edges[k]) ==> Outranks(edges, k, j)
  }

  ghost function Reconciled(edges: Edges): Edges {
    map k | k in edges && Survives(edges, k) :: edges[k]
  }

  lemma PackedOrder(p: int, x: nat, q: int, y: nat)
    requires x < 10 && y < 10
    ensures p * 10 + x > q * 10 + y <==> p > q || (p == q && x > y)
    ensures p * 10 + x == q * 10 + y <==> p == q && x == y
  {
  }

  /** The combined score compares as the pair does: the bonus never spills into the confidence. */
  lemma ScoreOrder(edges: Edges, k: string, j: string)
    requires k in edges && j in edges
    ensures Outranks(edges, k, j) <==> Ahead(Score, edges, k, j)
  {
    PackedOrder(PerMille(edges[k]), Bonus(edges[k]), PerMille(edges[j]), Bonus(edges[j]));
  }

  lemma SurvivorsAreLeaders(edges: Edges)
    ensures Reconciled(edges) == Leaders(Score, edges)
  {
    forall k, j | k in edges && j in edges ensures Outranks(edges, k, j) <==> Ahead(Score, edges, k, j) {
      ScoreOrder(edges, k, j);
    }
    assert forall k :: k in edges ==> (Survives(edges, k) <==> Leads(Score, edges, k, edges.Keys));
  }

  /** The three passes keep exactly the edges that outrank every other edge of their triple. */
  method ReconcileEdges(edges: Edges) returns (r: Edges)
    ensures r == Reconciled(edges)
  {
    r := RetainWinners(Score, edges);
    SurvivorsAreLeaders(edges);
  }

  /** No triple is lost, and none occurs twice. */
  lemma ReconciledTriples(edges: Edges)
    ensures TriplesOf(Reconciled(edges)) == TriplesOf(edges)
    ensures OnePerTriple(Reconciled(edges))
  {
    SurvivorsAreLeaders(edges);
    LeadersKeepTriples(Score, edges);
    LeadersAreOnePerTriple(Score, edges);
  }

  /** Survivors are unchanged; an edge is dropped exactly when the survivor of its triple outranks it. */
  lemma DroppedIsOutranked(edges: Edges, k: string) returns (w: string)
    requires k in edges
    ensures w in Reconciled(edges) && Reconciled(edges)[w] == edges[w] && TripleOf(edges[w]) == TripleOf(edges[k])
    ensures k !in Reconciled(edges) <==> Outranks(edges, w, k)
  {
    SurvivorsAreLeaders(edges);
    w := LeaderExists(Score, edges, k, edges.Keys);
    AheadIsTotal(Score, edges, w, k);
    ScoreOrder(edges, w, k);
  }

  lemma ReconciledIsIdempotent(edges: Edges)
    ensures Reconciled(Reconciled(edges)) == Reconciled(edges)
  {
    ReconciledTriples(edges);
    OnePerTripleIsFixed(Score, Reconciled(edges));
    SurvivorsAreLeaders(Reconciled(edges));
  }

  /** The confidence column, when it is a finite number. */
  ghost predicate Confident(e: Edge, c: real) {
    Property(e.properties, "confidence") == Dbl(Finite(c))
  }

  lemma TruncateGap(x: real, y: real)
    requires Truncate(x) >= Truncate(y)
    ensures x >= 0.0 ==> y < x + 1.0
    ensures x < 0.0 ==> y < x + 2.0
  {
  }

  lemma PerMilleGap(e: Edge, f: Edge, c: real, d: real)
    requires Confident(e, c) && Confident(f, d) && PerMille(e) >= PerMille(f)
    ensures c >= 0.0 ==> d < c + 0.001
    ensures c < 0.0 ==> d < c + 0.002
  {
    TruncateGap(c * 1000.0, d * 1000.0);
  }

  ghost predicate Provided(e: Edge, provenance: string) {
    Property(e.properties, "provenance") == Text(provenance)
  }

  lemma BonusOrder(e: Edge, f: Edge)
    requires Bonus(e) >= Bonus(f)
    ensures Provided(f, "scip") ==> Provided(e, "scip")
    ensures Provided(f, "tree-sitter") ==> Provided(e, "scip") || Provided(e, "tree-sitter")
    ensures Provided(f, "heuristic") ==> Provided(e, "scip") || Provided(e, "tree-sitter") || Provided(e, "heuristic")
  {
    assert "scip"[0] == 's' && "tree-sitter"[0] == 't' && "heuristic"[0] == 'h';
  }

  /**
   * The surviving edge of a triple is at least as confident as every other, to a thousandth, and
   * among equally confident ones SCIP beats tree-sitter and tree-sitter beats the heuristics.
   */
  lemma SurvivorIsBest(edges: Edges, k: string, j: string)
    requires k in Reconciled(edges) && j in edges && TripleOf(edges[j]) == TripleOf(edges[k])
    ensures forall c, d :: Confident(edges[k], c) && Confident(edges[j], d) && c >= 0.0 ==> d < c + 0.001
    ensures forall c, d :: Confident(edges[k], c) && Confident(edges[j], d) && c < 0.0 ==> d < c + 0.002
    ensures Property(edges[k].properties, "confidence") == Property(edges[j].properties, "confidence") ==>
              && (Provided(edges[j], "scip") ==> Provided(edges[k], "scip"))
              && (Provided(edges[j], "tree-sitter") ==> Provided(edges[k], "scip") || Provided(edges[k], "tree-sitter"))
              && (Provided(edges[j], "heuristic") ==>
                    Provided(edges[k], "scip") || Provided(edges[k], "tree-sitter") || Provided(edges[k], "heuristic"))
  {
    forall c, d | Confident(edges[k], c) && Confident(edges[j], d)
      ensures (c >= 0.0 ==> d < c + 0.001) && (c < 0.0 ==> d < c + 0.002)
    {
      PerMilleGap(edges[k], edges[j], c, d);
    }
    if Property(edges[k].properties, "confidence") == Property(edges[j].properties, "confidence") {
      BonusOrder(edges[k], edges[j]);
    }
  }
}
