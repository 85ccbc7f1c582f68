/** What the anchor of a vertex says of the fact or symbol the vertex was made from, and when two anchors are one. */
module AnchorNames {
  import opened Basics
  import T = Text
  import opened GraphTypes
  import opened GraphModel
  import opened Accumulator
  import opened AccumulatorVertices
  import opened Anchors
  import F = Facts

  predicate Anchorable(kind: string) {
    kind == "file" || kind == "function" || kind == "method" || kind == "class" || kind == "symbol"
  }

  function NonBlank(s: string): Option<string> {
    if T.IsBlank(s) then None else Some(s)
  }

  /** A vertex with a display name is anchored under it exactly when the name says something. */
  lemma AnchoredExactly(v: Vertex, display: string)
    requires Property(v.properties, "label") == Text(display) && !T.IsBlank(display)
    ensures PrimaryKey(v).Some? <==>
            Anchorable(v.kind) && NormalizeToken(display) != "" && !LowSignal(NormalizeToken(display))
    ensures PrimaryKey(v).Some? ==> PrimaryKey(v).value == NormalizeToken(display) && AnchorOf(v).key == display
    ensures PrimaryKey(v).Some? ==> AnchorOf(v).nodeVid == v.vid && AnchorOf(v).normalizedKey == NormalizeToken(display)
    ensures PrimaryKey(v).Some? ==> AnchorOf(v).kind == if v.kind == "file" then "file" else "symbol"
  {
    assert T.Trim("") == "";
  }

  lemma AstSourceIsNotBlank(language: string)
    ensures !T.IsBlank("ast-" + language) && !("scip" <= "ast-" + language)
  {
    assert ("ast-" + language)[0] == 'a';
    BlankFirst("ast-" + language);
  }

  /** The anchor of an end of a fact has the fact's display name, file, confidence and tier, and no lines. */
  lemma AnchorTellsFact(v: Vertex, symbol: string, display: string, path: Primitive, language: string, tier: string,
                        fact: F.Fact)
    requires ReadShown(v.properties) == AstShown(symbol, display, path, language, tier, fact)
    requires !T.IsBlank(display) && !T.IsBlank(tier) && PrimaryKey(v).Some?
    ensures var a := AnchorOf(v);
            && a.key == display && a.nodeVid == v.vid && a.source == "ast-" + language
            && (!T.IsBlank(fact.filePath) ==> a.evidenceFilePath == Some(fact.filePath))
            && a.confidence == fact.confidence && a.confidenceTier == tier && a.startLine == None && a.endLine == None
  {
    AnchoredExactly(v, display);
    AstSourceIsNotBlank(language);
  }

  /** The anchor of a SCIP symbol has the symbol's display name, file and lines. */
  lemma AnchorTellsSymbol(v: Vertex, symbol: string, display: string, language: string, batch: string,
                          path: Option<string>, startLine: Option<int>, endLine: Option<int>)
    requires ReadShown(v.properties) == ScipShown(symbol, display, language, batch, path, startLine, endLine)
    requires !T.IsBlank(display) && PrimaryKey(v).Some?
    ensures var a := AnchorOf(v);
            && a.key == display && a.nodeVid == v.vid && a.source == "scip-" + batch
            && a.evidenceFilePath == (match path case None => None case Some(p) => NonBlank(p))
            && a.confidence == SCIP_CONFIDENCE && a.confidenceTier == EXTRACTED
            && a.startLine == startLine && a.endLine == endLine
  {
    AnchoredExactly(v, display);
    assert ("scip-" + batch)[0] == 's' && EXTRACTED[0] == 'E';
    BlankFirst("scip-" + batch);
    BlankFirst(EXTRACTED);
  }

  // Which edges are linked.

  /** Uses are linked: calls, imports, bases and interfaces.  Definitions, containment and links are not. */
  lemma LinksFollowUses(k: F.FactKind)
    ensures Eligible(EdgeKindOf(k)) <==> k != F.Defines
    ensures !Eligible("CONTAINS") && !Eligible(ANCHOR_LINK)
  {
    assert "DEFINES"[0] == 'D' && "CONTAINS"[3] == 'T' && "CONSUMES"[3] == 'S' && |"CALLS"| == 5 && |"CONTAINS"| == 8;
    assert ANCHOR_LINK[0] == 'A';
  }

  /** Of the four flags of a relationship, all but the definition are linked. */
  lemma LinksFollowFlags(rel: Relationship, i: nat)
    requires i < |EdgesToEmit(rel)|
    ensures Eligible(EdgesToEmit(rel)[i].kind) <==> EdgesToEmit(rel)[i].kind != "DEFINES"
  {
    assert "DEFINES"[0] == 'D';
  }

  // Anchor keys.

  lemma NormalHasNoBar(s: string)
    requires Normal(s)
    ensures '|' !in s
  {
  }

  lemma KeySplits(a: string, d: string, n: string, v: string, a': string, n': string, v': string)
    requires '|' !in a && '|' !in d && '|' !in n && '|' !in a' && '|' !in n'
    requires a + "|" + d + "|" + n + "|" + v == a' + "|" + d + "|" + n' + "|" + v'
    ensures a == a' && n == n' && v == v'
  {
    var x, y := d + "|" + n + "|" + v, d + "|" + n' + "|" + v';
    assert a + "|" + x == a + "|" + d + "|" + n + "|" + v && a' + "|" + y == a' + "|" + d + "|" + n' + "|" + v';
    SplitAtFirst(a, a', x, y, '|');
    var p, q := n + "|" + v, n' + "|" + v';
    assert d + "|" + p == x && d + "|" + q == y;
    SplitAtFirst(d, d, p, q, '|');
    SplitAtFirst(n, n', v, v', '|');
  }

  lemma KeysApart(a: Anchor, b: Anchor)
    requires a.direction == b.direction == "PROVIDES" && '|' !in a.kind && '|' !in b.kind
    requires '|' !in a.normalizedKey && '|' !in b.normalizedKey
    ensures AnchorKey(a) == AnchorKey(b) <==>
            a.kind == b.kind && a.normalizedKey == b.normalizedKey && a.nodeVid == b.nodeVid
  {
    if AnchorKey(a) == AnchorKey(b) {
      KeySplits(a.kind, "PROVIDES", a.normalizedKey, a.nodeVid, b.kind, b.normalizedKey, b.nodeVid);
    }
  }

  lemma AnchorParts(v: Vertex) returns (a: Anchor)
    requires PrimaryKey(v).Some?
    ensures a == AnchorOf(v) && a.direction == "PROVIDES" && AnchorKind(v.kind) == Some(a.kind) && a.nodeVid == v.vid
    ensures PrimaryKey(v) == Some(a.normalizedKey) && '|' !in a.kind && '|' !in a.normalizedKey
  {
    a := AnchorOf(v);
    NormalizeTokenIsCanonical(AnchorName(v));
    NormalHasNoBar(a.normalizedKey);
  }

  /** Two vertices share an anchor exactly when they agree on the kind of anchor, the normalized name and the vid. */
  lemma AnchorKeyIdentifies(v: Vertex, w: Vertex)
    requires PrimaryKey(v).Some? && PrimaryKey(w).Some?
    ensures AnchorKey(AnchorOf(v)) == AnchorKey(AnchorOf(w)) <==>
            v.vid == w.vid && PrimaryKey(v) == PrimaryKey(w) && AnchorKind(v.kind) == AnchorKind(w.kind)
  {
    var a := AnchorParts(v);
    var b := AnchorParts(w);
    KeysApart(a, b);
  }
}
