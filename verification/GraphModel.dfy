/** Code-graph scopes, vertex identities and token normalization. */
module GraphModel {
  import opened Basics
  import T = Text

  datatype CodeGraphScope = CodeGraphScope(
    orgId: int,
    repoId: int,
    revision: string,
    commitHash: string,
    workspaceId: string,
    schemaVersion: Option<int>,
    builderVersion: Option<string>)

  datatype Identity = Identity(scope: CodeGraphScope, kind: string, key: string)

  datatype ScopeError =
    | InvalidOrgId(id: int)
    | InvalidRepoId(id: int)
    | EmptyRevision
    | EmptyWorkspace
    | InvalidCommitHash(hash: string)
    | InvalidSchemaVersion(version: int)
    | BlankBuilderVersion

  const SCHEMA_VERSION := 1
  const BUILDER_VERSION := "codeintel-code-graph-v7"

  predicate IsHexDigit(c: char) {
    '0' <= c <= '9' || 'a' <= c <= 'f' || 'A' <= c <= 'F'
  }

  predicate IsSha(s: string) {
    |s| == 40 && forall i :: 0 <= i < 40 ==> IsHexDigit(s[i])
  }

  /** `assert_valid_scope`: the first violation, in the order they are checked. */
  function ScopeViolation(s: CodeGraphScope): Option<ScopeError> {
    if s.orgId <= 0 then Some(InvalidOrgId(s.orgId))
    else if s.repoId <= 0 then Some(InvalidRepoId(s.repoId))
    else if T.IsBlank(s.revision) then Some(EmptyRevision)
    else if T.IsBlank(s.workspaceId) then Some(EmptyWorkspace)
    else if !IsSha(s.commitHash) then Some(InvalidCommitHash(s.commitHash))
    else if s.schemaVersion.Some? && s.schemaVersion.value <= 0 then Some(InvalidSchemaVersion(s.schemaVersion.value))
    else if s.builderVersion.Some? && T.IsBlank(s.builderVersion.value) then Some(BlankBuilderVersion)
    else None
  }

  predicate ValidScope(s: CodeGraphScope) {
    ScopeViolation(s).None?
  }

  function SchemaVersionOf(s: CodeGraphScope): int {
    UnwrapOr(s.schemaVersion, SCHEMA_VERSION)
  }

  function BuilderVersionOf(s: CodeGraphScope): string {
    UnwrapOr(s.builderVersion, BUILDER_VERSION)
  }

  /** The hex SHA-256 digest of a text, uninterpreted. */
  type Digest = string -> string

  function Take(s: string, n: nat): string {
    if |s| <= n then s else s[..n]
  }

  function HashParts(sha: Digest, parts: seq<string>, length: nat): string {
    Take(sha(T.Join(parts, "\0")), length)
  }

  function IdentityParts(i: Identity): seq<string> {
    [T.Decimal(i.scope.orgId), i.scope.workspaceId, T.Decimal(i.scope.repoId), i.scope.commitHash,
     T.Decimal(SchemaVersionOf(i.scope)), BuilderVersionOf(i.scope), i.kind, i.key]
  }

  function VidPrefix(sha: Digest, i: Identity): string {
    "cg:o" + T.Decimal(i.scope.orgId)
    + ":w" + HashParts(sha, [i.scope.workspaceId], 8)
    + ":r" + T.Decimal(i.scope.repoId)
    + ":c" + Take(i.scope.commitHash, 12)
    + ":s" + T.Decimal(SchemaVersionOf(i.scope))
    + ":b" + HashParts(sha, [BuilderVersionOf(i.scope)], 8)
    + ":" + i.kind + ":"
  }

  function Vid(sha: Digest, i: Identity): string {
    VidPrefix(sha, i) + HashParts(sha, IdentityParts(i), 32)
  }

  /** `build_code_graph_vertex_id`. */
  function BuildVertexId(sha: Digest, i: Identity): Result<string, ScopeError> {
    match ScopeViolation(i.scope)
    case Some(e) => Err(e)
    case None => Ok(Vid(sha, i))
  }

  // Joining with a separator that occurs in no part loses nothing.

  lemma {:induction false} SplitAtFirst(a: string, b: string, x: string, y: string, sep: char)
    requires sep !in a && sep !in b
    requires a + [sep] + x == b + [sep] + y
    ensures a == b && x == y
  {
    if a == [] || b == [] {
      assert (a + [sep] + x)[0] == (b + [sep] + y)[0];
      assert a == [] && b == [];
      assert (a + [sep] + x)[1..] == x && (b + [sep] + y)[1..] == y;
    } else {
      assert a[0] == (a + [sep] + x)[0] && b[0] == (b + [sep] + y)[0];
      assert (a + [sep] + x)[1..] == a[1..] + [sep] + x;
      assert (b + [sep] + y)[1..] == b[1..] + [sep] + y;
      SplitAtFirst(a[1..], b[1..], x, y, sep);
      assert a == [a[0]] + a[1..] && b == [b[0]] + b[1..];
    }
  }

  ghost predicate Free(parts: seq<string>, sep: char) {
    forall i :: 0 <= i < |parts| ==> sep !in parts[i]
  }

  lemma {:induction false} JoinIsInjective(a: seq<string>, b: seq<string>, sep: char)
    requires |a| == |b| && Free(a, sep) && Free(b, sep)
    requires T.Join(a, [sep]) == T.Join(b, [sep])
    ensures a == b
  {
    if |a| == 1 {
      assert a == [a[0]] && b == [b[0]];
    } else if |a| > 1 {
      var x, y := T.Join(a[1..], [sep]), T.Join(b[1..], [sep]);
      assert a[0] + [sep] + x == b[0] + [sep] + y;
      SplitAtFirst(a[0], b[0], x, y, sep);
      JoinIsInjective(a[1..], b[1..], sep);
      assert a == [a[0]] + a[1..] && b == [b[0]] + b[1..];
    }
  }

  /** What the digest identifies: everything but the revision. */
  ghost predicate SameIdentity(a: Identity, b: Identity) {
    && a.scope.orgId == b.scope.orgId && a.scope.workspaceId == b.scope.workspaceId
    && a.scope.repoId == b.scope.repoId && a.scope.commitHash == b.scope.commitHash
    && SchemaVersionOf(a.scope) == SchemaVersionOf(b.scope) && BuilderVersionOf(a.scope) == BuilderVersionOf(b.scope)
    && a.kind == b.kind && a.key == b.key
  }

  lemma PartsDecideIdentity(a: Identity, b: Identity)
    ensures IdentityParts(a) == IdentityParts(b) <==> SameIdentity(a, b)
  {
    if IdentityParts(a) == IdentityParts(b) {
      var x, y := IdentityParts(a), IdentityParts(b);
      assert x[0] == y[0] && x[1] == y[1] && x[2] == y[2] && x[3] == y[3] && x[4] == y[4] && x[5] == y[5]
          && x[6] == y[6] && x[7] == y[7];
      T.DecimalIsInjective(a.scope.orgId, b.scope.orgId);
      T.DecimalIsInjective(a.scope.repoId, b.scope.repoId);
      T.DecimalIsInjective(SchemaVersionOf(a.scope), SchemaVersionOf(b.scope));
    }
  }

  /** Two texts of identities do not share the first 32 digits of their digests by accident. */
  ghost predicate NoCollision(sha: Digest, x: string, y: string) {
    && |sha(x)| >= 32 && |sha(y)| >= 32
    && (Take(sha(x), 32) == Take(sha(y), 32) ==> x == y)
  }

  lemma SameSuffix(p: string, q: string, x: string, y: string)
    requires p + x == q + y && |x| == |y|
    ensures x == y
  {
    assert x == (p + x)[|p + x| - |x|..] && y == (q + y)[|q + y| - |y|..];
  }

  lemma SameIdentitySameVid(sha: Digest, a: Identity, b: Identity)
    requires SameIdentity(a, b)
    ensures Vid(sha, a) == Vid(sha, b)
  {
    PartsDecideIdentity(a, b);
  }

  /**
   * Vertex ids are equal exactly for equal organisation, workspace, repository, commit, effective
   * versions, kind and key; in particular a vid never depends on the revision.
   */
  lemma VidIdentifies(sha: Digest, a: Identity, b: Identity)
    requires Free(IdentityParts(a), '\0') && Free(IdentityParts(b), '\0')
    requires NoCollision(sha, T.Join(IdentityParts(a), "\0"), T.Join(IdentityParts(b), "\0"))
    ensures Vid(sha, a) == Vid(sha, b) <==> SameIdentity(a, b)
  {
    if SameIdentity(a, b) {
      SameIdentitySameVid(sha, a, b);
    } else if Vid(sha, a) == Vid(sha, b) {
      var x, y := T.Join(IdentityParts(a), "\0"), T.Join(IdentityParts(b), "\0");
      SameSuffix(VidPrefix(sha, a), VidPrefix(sha, b), Take(sha(x), 32), Take(sha(y), 32));
      JoinIsInjective(IdentityParts(a), IdentityParts(b), '\0');
      PartsDecideIdentity(a, b);
    }
  }

  /** A number followed by a colon ends there. */
  lemma DecimalEndsAtColon(m: int, n: int, x: string, y: string)
    requires |x| > 0 && |y| > 0 && x[0] == ':' && y[0] == ':'
    requires T.Decimal(m) + x == T.Decimal(n) + y
    ensures m == n && x == y
  {
    T.DecimalChars(m);
    T.DecimalChars(n);
    assert T.Decimal(m) + [':'] + x[1..] == T.Decimal(m) + x && T.Decimal(n) + [':'] + y[1..] == T.Decimal(n) + y;
    SplitAtFirst(T.Decimal(m), T.Decimal(n), x[1..], y[1..], ':');
    T.DecimalIsInjective(m, n);
  }

  lemma SameLengthSplits(a: string, b: string, x: string, y: string)
    requires a + x == b + y && |a| == |b|
    ensures a == b && x == y
  {
    assert a == (a + x)[..|a|] && b == (b + y)[..|b|];
    assert x == (a + x)[|a|..] && y == (b + y)[|b|..];
  }

  // What follows the organisation, the workspace, the repository, the commit and the schema version in a vid.

  function AfterOrg(sha: Digest, i: Identity): string {
    ":w" + (HashParts(sha, [i.scope.workspaceId], 8) + AfterWorkspace(sha, i))
  }

  function AfterWorkspace(sha: Digest, i: Identity): string {
    ":r" + (T.Decimal(i.scope.repoId) + AfterRepo(sha, i))
  }

  function AfterRepo(sha: Digest, i: Identity): string {
    ":c" + (Take(i.scope.commitHash, 12) + AfterCommit(sha, i))
  }

  function AfterCommit(sha: Digest, i: Identity): string {
    ":s" + (T.Decimal(SchemaVersionOf(i.scope)) + AfterSchema(sha, i))
  }

  function AfterSchema(sha: Digest, i: Identity): string {
    ":b" + (HashParts(sha, [BuilderVersionOf(i.scope)], 8) + (":" + (i.kind + (":" + HashParts(sha, IdentityParts(i), 32)))))
  }

  /** Appending parts one by one is prepending them from the right. */
  lemma Reassociated(o: string, w: string, r: string, c: string, v: string, b: string, k: string, x: string)
    ensures "cg:o" + o + ":w" + w + ":r" + r + ":c" + c + ":s" + v + ":b" + b + ":" + k + ":" + x ==
            "cg:o" + (o + (":w" + (w + (":r" + (r + (":c" + (c + (":s" + (v + (":b" + (b + (":" + (k + (":" + x))))))))))))))
  {
    var p1 := "cg:o" + o; var p2 := p1 + ":w"; var p3 := p2 + w; var p4 := p3 + ":r"; var p5 := p4 + r;
    var p6 := p5 + ":c"; var p7 := p6 + c; var p8 := p7 + ":s"; var p9 := p8 + v; var p10 := p9 + ":b";
    var p11 := p10 + b; var p12 := p11 + ":"; var p13 := p12 + k;
    var r14 := ":" + x; var r13 := k + r14; var r12 := ":" + r13; var r11 := b + r12; var r10 := ":b" + r11;
    var r9 := v + r10; var r8 := ":s" + r9; var r7 := c + r8; var r6 := ":c" + r7; var r5 := r + r6;
    var r4 := ":r" + r5; var r3 := w + r4; var r2 := ":w" + r3;
    T.Assoc(p13, ":", x);
    T.Assoc(p12, k, r14);
    T.Assoc(p11, ":", r13);
    T.Assoc(p10, b, r12);
    T.Assoc(p9, ":b", r11);
    T.Assoc(p8, v, r10);
    T.Assoc(p7, ":s", r9);
    T.Assoc(p6, c, r8);
    T.Assoc(p5, ":c", r7);
    T.Assoc(p4, r, r6);
    T.Assoc(p3, ":r", r5);
    T.Assoc(p2, w, r4);
    T.Assoc(p1, ":w", r3);
    T.Assoc("cg:o", o, r2);
  }

  lemma VidUnfolds(sha: Digest, i: Identity)
    ensures Vid(sha, i) == "cg:o" + (T.Decimal(i.scope.orgId) + AfterOrg(sha, i))
  {
    Reassociated(T.Decimal(i.scope.orgId), HashParts(sha, [i.scope.workspaceId], 8), T.Decimal(i.scope.repoId),
                 Take(i.scope.commitHash, 12), T.Decimal(SchemaVersionOf(i.scope)),
                 HashParts(sha, [BuilderVersionOf(i.scope)], 8), i.kind, HashParts(sha, IdentityParts(i), 32));
  }

  /**
   * Even if digests collide, vertices of different organisations, repositories, schema versions
   * or commits that differ in their first twelve digits never share a vid.
   */
  lemma VidSeparatesTenants(sha: Digest, a: Identity, b: Identity)
    requires ValidScope(a.scope) && ValidScope(b.scope) && Vid(sha, a) == Vid(sha, b)
    requires |sha(a.scope.workspaceId)| >= 8 && |sha(b.scope.workspaceId)| >= 8
    ensures a.scope.orgId == b.scope.orgId && a.scope.repoId == b.scope.repoId
    ensures a.scope.commitHash[..12] == b.scope.commitHash[..12] && SchemaVersionOf(a.scope) == SchemaVersionOf(b.scope)
  {
    VidUnfolds(sha, a);
    VidUnfolds(sha, b);
    var x, y := AfterOrg(sha, a), AfterOrg(sha, b);
    SameLengthSplits("cg:o", "cg:o", T.Decimal(a.scope.orgId) + x, T.Decimal(b.scope.orgId) + y);
    DecimalEndsAtColon(a.scope.orgId, b.scope.orgId, x, y);
    SameRepo(sha, a, b);
  }

  lemma SameRepo(sha: Digest, a: Identity, b: Identity)
    requires ValidScope(a.scope) && ValidScope(b.scope) && AfterOrg(sha, a) == AfterOrg(sha, b)
    requires |sha(a.scope.workspaceId)| >= 8 && |sha(b.scope.workspaceId)| >= 8
    ensures a.scope.repoId == b.scope.repoId
    ensures a.scope.commitHash[..12] == b.scope.commitHash[..12] && SchemaVersionOf(a.scope) == SchemaVersionOf(b.scope)
  {
    var v, w := HashParts(sha, [a.scope.workspaceId], 8), HashParts(sha, [b.scope.workspaceId], 8);
    var x, y := AfterRepo(sha, a), AfterRepo(sha, b);
    SameLengthSplits(":w", ":w", v + AfterWorkspace(sha, a), w + AfterWorkspace(sha, b));
    SameLengthSplits(v, w, AfterWorkspace(sha, a), AfterWorkspace(sha, b));
    SameLengthSplits(":r", ":r", T.Decimal(a.scope.repoId) + x, T.Decimal(b.scope.repoId) + y);
    DecimalEndsAtColon(a.scope.repoId, b.scope.repoId, x, y);
    SameCommit(sha, a, b);
  }

  lemma SameCommit(sha: Digest, a: Identity, b: Identity)
    requires ValidScope(a.scope) && ValidScope(b.scope) && AfterRepo(sha, a) == AfterRepo(sha, b)
    ensures a.scope.commitHash[..12] == b.scope.commitHash[..12] && SchemaVersionOf(a.scope) == SchemaVersionOf(b.scope)
  {
    var m, n := SchemaVersionOf(a.scope), SchemaVersionOf(b.scope);
    var x, y := AfterSchema(sha, a), AfterSchema(sha, b);
    SameLengthSplits(":c", ":c", Take(a.scope.commitHash, 12) + AfterCommit(sha, a),
                     Take(b.scope.commitHash, 12) + AfterCommit(sha, b));
    SameLengthSplits(Take(a.scope.commitHash, 12), Take(b.scope.commitHash, 12), AfterCommit(sha, a), AfterCommit(sha, b));
    SameLengthSplits(":s", ":s", T.Decimal(m) + x, T.Decimal(n) + y);
    DecimalEndsAtColon(m, n, x, y);
  }

  // The accumulator's edge key.

  function EdgeKey(fromVid: string, toVid: string, kind: string, rank: nat): string {
    T.Join([fromVid, toVid, kind, T.Decimal(rank)], "|")
  }

  /** With `|`-free vids and kinds, only edges equal in all four components share a key. */
  lemma EdgeKeyIdentifies(f: string, t: string, k: string, r: nat, f': string, t': string, k': string, r': nat)
    requires '|' !in f && '|' !in t && '|' !in k && '|' !in f' && '|' !in t' && '|' !in k'
    ensures EdgeKey(f, t, k, r) == EdgeKey(f', t', k', r') <==> f == f' && t == t' && k == k' && r == r'
  {
    if EdgeKey(f, t, k, r) == EdgeKey(f', t', k', r') {
      var x, y := [f, t, k, T.Decimal(r)], [f', t', k', T.Decimal(r')];
      T.DecimalChars(r);
      T.DecimalChars(r');
      JoinIsInjective(x, y, '|');
      assert x[0] == y[0] && x[1] == y[1] && x[2] == y[2] && x[3] == y[3];
      T.DecimalIsInjective(r, r');
    }
  }

  lemma TakeFree(s: string, n: nat, sep: char)
    requires sep !in s
    ensures sep !in Take(s, n)
  {
  }

  /** A vid has no `|` as long as its kind and the digests have none. */
  lemma VidHasNoBar(sha: Digest, i: Identity)
    requires ValidScope(i.scope) && '|' !in i.kind
    requires forall x :: '|' !in sha(x)
    ensures '|' !in Vid(sha, i)
  {
    T.DecimalChars(i.scope.orgId);
    T.DecimalChars(i.scope.repoId);
    T.DecimalChars(SchemaVersionOf(i.scope));
    assert '|' !in i.scope.commitHash;
    TakeFree(i.scope.commitHash, 12, '|');
    TakeFree(sha(T.Join([i.scope.workspaceId], "\0")), 8, '|');
    TakeFree(sha(T.Join([BuilderVersionOf(i.scope)], "\0")), 8, '|');
    TakeFree(sha(T.Join(IdentityParts(i), "\0")), 32, '|');
  }

  // Token normalization.

  predicate IsTokenChar(c: char) {
    '0' <= c <= '9' || 'a' <= c <= 'z' || 'A' <= c <= 'Z' || c == '_' || c == '.' || c == ':' || c == '-'
  }

  function AsciiLower(c: char): char {
    if 'A' <= c <= 'Z' then (c as int + 32) as char else c
  }

  function LowerAll(s: string): string {
    seq(|s|, i requires 0 <= i < |s| => AsciiLower(s[i]))
  }

  /** Token characters lowercased, each run of others replaced by one underscore. */
  function Collapse(s: string, inRun: bool): string {
    if s == [] then []
    else if IsTokenChar(s[0]) then [AsciiLower(s[0])] + Collapse(s[1..], false)
    else (if inRun then [] else "_") + Collapse(s[1..], true)
  }

  function NormalizeToken(s: string): string {
    Collapse(T.Trim(s), false)
  }

  lemma CollapseStep(out: string, s: string, inRun: bool)
    requires s != []
    ensures IsTokenChar(s[0]) ==> out + Collapse(s, inRun) == (out + [AsciiLower(s[0])]) + Collapse(s[1..], false)
    ensures !IsTokenChar(s[0]) && inRun ==> out + Collapse(s, inRun) == out + Collapse(s[1..], true)
    ensures !IsTokenChar(s[0]) && !inRun ==> out + Collapse(s, inRun) == (out + ['_']) + Collapse(s[1..], true)
  {
    T.Assoc(out, [AsciiLower(s[0])], Collapse(s[1..], false));
    T.Assoc(out, ['_'], Collapse(s[1..], true));
    assert [] + Collapse(s[1..], true) == Collapse(s[1..], true);
  }

  method ComputeNormalizeToken(value: string) returns (out: string)
    ensures out == NormalizeToken(value)
  {
    var trimmed := T.Trim(value);
    out := [];
    var inRun := false;
    assert trimmed[0..] == trimmed;
    ghost var whole := Collapse(trimmed, false);
    for i := 0 to |trimmed|
      invariant out + Collapse(trimmed[i..], inRun) == whole
    {
      CollapseStep(out, trimmed[i..], inRun);
      assert trimmed[i..][1..] == trimmed[i + 1..];
      if IsTokenChar(trimmed[i]) {
        out := out + [AsciiLower(trimmed[i])];
        inRun := false;
      } else if !inRun {
        out := out + ['_'];
        inRun := true;
      }
    }
    assert out + [] == out;
  }

  ghost predicate Normal(s: string) {
    forall i :: 0 <= i < |s| ==> IsTokenChar(s[i]) && !('A' <= s[i] <= 'Z')
  }

  lemma {:induction false} CollapseIsNormal(s: string, inRun: bool)
    ensures Normal(Collapse(s, inRun))
  {
    if s != [] { CollapseIsNormal(s[1..], !IsTokenChar(s[0])); }
  }

  lemma {:induction false} CollapseOfNormal(s: string)
    requires Normal(s)
    ensures Collapse(s, false) == s
  {
    if s != [] {
      CollapseOfNormal(s[1..]);
      assert s == [s[0]] + s[1..];
    }
  }

  /** Normalized tokens use only lower-case token characters, and are the fixed points. */
  lemma NormalizeTokenIsCanonical(s: string)
    ensures Normal(NormalizeToken(s))
    ensures NormalizeToken(s) == s <==> Normal(s)
    ensures NormalizeToken(NormalizeToken(s)) == NormalizeToken(s)
  {
    CollapseIsNormal(T.Trim(s), false);
    if Normal(s) {
      assert T.Trim(s) == s;
      CollapseOfNormal(s);
    }
    var n := NormalizeToken(s);
    assert T.Trim(n) == n;
    CollapseOfNormal(n);
  }

  /** The same character, or a capital and its small letter. */
  ghost predicate SameUpToCase(c: char, d: char) {
    if 'A' <= c <= 'Z' then 'a' <= d <= 'z' && d as int - 'a' as int == c as int - 'A' as int else d == c
  }

  lemma {:induction false} CollapseKeepsTokens(s: string)
    requires forall i :: 0 <= i < |s| ==> IsTokenChar(s[i])
    ensures |Collapse(s, false)| == |s|
    ensures forall i :: 0 <= i < |s| ==> SameUpToCase(s[i], Collapse(s, false)[i])
  {
    if s != [] { CollapseKeepsTokens(s[1..]); }
  }

  /** A text of token characters keeps its length, and each of its characters up to case. */
  lemma NormalizeTokenKeepsTokens(s: string)
    requires forall i :: 0 <= i < |s| ==> IsTokenChar(s[i])
    ensures |NormalizeToken(s)| == |s|
    ensures forall i :: 0 <= i < |s| ==> SameUpToCase(s[i], NormalizeToken(s)[i])
  {
    assert T.Trim(s) == s;
    CollapseKeepsTokens(s);
  }
}
