/**
 * The audit log: each row carries its own hash and the hash of its predecessor. The digest is an
 * abstract injective function that never yields the text GENESIS.
 */
module AuditChain {
  import opened Prelude
  import opened Selections

  datatype Payload = Payload(
    tenant: string, user: Option<string>, action: string, entityType: string, entityId: string,
    beforeState: string, afterState: string, createdAt: string)

  type Digest = (Payload, string) -> string

  /** The columns that verification reads. */
  datatype Link = Link(hash: string, previousHash: Option<string>)

  datatype Row = Row(payload: Payload, link: Link)

  datatype Verdict = Valid | BrokenAt(index: nat)

  const GENESIS := "GENESIS"

  ghost predicate Collides(digest: Digest, p: Payload, h: string, p': Payload, h': string) {
    digest(p, h) == digest(p', h')
  }

  ghost predicate YieldsGenesis(digest: Digest, p: Payload, h: string) {
    digest(p, h) == GENESIS
  }

  ghost predicate GoodDigest(digest: Digest) {
    && (forall p, h, p', h' :: Collides(digest, p, h, p', h') ==> p == p' && h == h')
    && (forall p, h :: !YieldsGenesis(digest, p, h))
  }

  function ComputeHash(digest: Digest, payload: Payload, previousHash: Option<string>): string {
    digest(payload, if previousHash.Some? then previousHash.value else GENESIS)
  }

  // ---------------------------------------------------------------------------------------
  // Verification

  function ExpectedPrevious(logs: seq<Link>, i: nat): Option<string>
    requires i < |logs|
  {
    if i == 0 then None else Some(logs[i - 1].hash)
  }

  ghost predicate LinksBack(logs: seq<Link>, i: nat)
    requires i < |logs|
  {
    logs[i].previousHash == ExpectedPrevious(logs, i)
  }

  ghost predicate LinkedUpTo(logs: seq<Link>, n: int) {
    forall i :: 0 <= i < n && i < |logs| ==> LinksBack(logs, i)
  }

  /** The verdict names the first row that does not link to its predecessor. */
  ghost predicate IsVerdict(logs: seq<Link>, v: Verdict) {
    if LinkedUpTo(logs, |logs|) then v == Valid
    else
      v.BrokenAt? && v.index < |logs| && LinkedUpTo(logs, v.index) && !LinksBack(logs, v.index)
  }

  method VerifyChain(logs: seq<Link>) returns (v: Verdict)
    ensures IsVerdict(logs, v)
  {
    for i := 0 to |logs|
      invariant LinkedUpTo(logs, i)
    {
      var expectedPrevious := if i == 0 then None else Some(logs[i - 1].hash);
      if logs[i].previousHash != expectedPrevious {
        assert !LinksBack(logs, i);
        return BrokenAt(i);
      }
    }
    return Valid;
  }

  // ---------------------------------------------------------------------------------------
  // Recording

  /** The rows of one tenant, oldest first. */
  function OfTenant(rows: seq<Row>, tenant: string): seq<Row> {
    if |rows| == 0 then [] else
    var front, r := OfTenant(rows[..|rows| - 1], tenant), rows[|rows| - 1];
    if r.payload.tenant == tenant then front + [r] else front
  }

  function IsTenant(tenant: string): Row -> bool {
    (r: Row) => r.payload.tenant == tenant
  }

  /** The tenant's own rows, all of them, in table order. */
  lemma {:induction false} OfTenantIsFiltered(rows: seq<Row>, tenant: string)
    ensures IsFiltered(rows, IsTenant(tenant), OfTenant(rows, tenant))
  {
    if |rows| == 0 {
      NothingIsFiltered(IsTenant(tenant));
    } else {
      var front, last := rows[..|rows| - 1], rows[|rows| - 1];
      assert rows == front + [last];
      OfTenantIsFiltered(front, tenant);
      FilteredAppend(front, IsTenant(tenant), OfTenant(front, tenant), last);
    }
  }

  /** The position of the tenant's newest row. */
  ghost predicate IsNewest(rows: seq<Row>, tenant: string, j: int) {
    && 0 <= j < |rows| && rows[j].payload.tenant == tenant
    && forall i :: j < i < |rows| ==> rows[i].payload.tenant != tenant
  }

  lemma {:induction false} LastHashIsNewest(rows: seq<Row>, tenant: string)
    ensures LastHash(OfTenant(rows, tenant)).None? <==> forall r :: r in rows ==> r.payload.tenant != tenant
    ensures forall j :: IsNewest(rows, tenant, j) ==> LastHash(OfTenant(rows, tenant)) == Some(rows[j].link.hash)
  {
    if |rows| > 0 {
      var n := |rows| - 1;
      LastHashIsNewest(rows[..n], tenant);
      assert rows == rows[..n] + [rows[n]];
      forall j | IsNewest(rows, tenant, j)
        ensures LastHash(OfTenant(rows, tenant)) == Some(rows[j].link.hash)
      {
        if rows[n].payload.tenant != tenant {
          assert IsNewest(rows[..n], tenant, j);
        }
      }
    }
  }

  function Links(rows: seq<Row>): seq<Link> {
    seq(|rows|, i requires 0 <= i < |rows| => rows[i].link)
  }

  function LastHash(rows: seq<Row>): Option<string> {
    if |rows| == 0 then None else Some(rows[|rows| - 1].link.hash)
  }

  /** The row that `record` appends for a payload. */
  function NextRow(digest: Digest, rows: seq<Row>, payload: Payload): Row {
    var previous := LastHash(OfTenant(rows, payload.tenant));
    Row(payload, Link(ComputeHash(digest, payload, previous), previous))
  }

  /** The row's link: null for a tenant's first row, else the hash of the tenant's newest row. */
  ghost predicate LinksToNewest(digest: Digest, rows: seq<Row>, payload: Payload, next: Row) {
    && next.payload == payload
    && (next.link.previousHash.None? <==> forall r :: r in rows ==> r.payload.tenant != payload.tenant)
    && (forall j :: IsNewest(rows, payload.tenant, j) ==> next.link.previousHash == Some(rows[j].link.hash))
    && next.link.hash ==
       digest(payload, if next.link.previousHash.Some? then next.link.previousHash.value else "GENESIS")
  }

  lemma NextRowLinks(digest: Digest, rows: seq<Row>, payload: Payload)
    ensures LinksToNewest(digest, rows, payload, NextRow(digest, rows, payload))
  {
    LastHashIsNewest(rows, payload.tenant);
  }

  class AuditService {
    const digest: Digest
    var rows: seq<Row>

    constructor (digest: Digest)
      ensures rows == [] && this.digest == digest
    {
      this.digest := digest;
      rows := [];
    }

    /** The hash of the tenant's newest row. */
    method LastOfTenant(tenant: string) returns (hash: Option<string>)
      ensures hash == LastHash(OfTenant(rows, tenant))
      ensures hash.None? <==> forall r :: r in rows ==> r.payload.tenant != tenant
      ensures forall j :: IsNewest(rows, tenant, j) ==> hash == Some(rows[j].link.hash)
    {
      LastHashIsNewest(rows, tenant);
      var i := |rows|;
      assert rows[..i] == rows;
      while i > 0
        invariant 0 <= i <= |rows|
        invariant LastHash(OfTenant(rows, tenant)) == LastHash(OfTenant(rows[..i], tenant))
      {
        i := i - 1;
        assert rows[..i + 1][..i] == rows[..i];
        if rows[i].payload.tenant == tenant {
          return Some(rows[i].link.hash);
        }
      }
      return None;
    }

    method Record(payload: Payload)
      modifies this
      ensures rows == old(rows) + [NextRow(digest, old(rows), payload)]
      ensures LinksToNewest(digest, old(rows), payload, rows[|old(rows)|])
    {
      var last := LastOfTenant(payload.tenant);
      var hash := ComputeHash(digest, payload, last);
      NextRowLinks(digest, rows, payload);
      rows := rows + [Row(payload, Link(hash, last))];
    }

    method VerifyIntegrity(tenant: string) returns (v: Verdict)
      ensures IsVerdict(Links(OfTenant(rows, tenant)), v)
      ensures forall own :: IsFiltered(rows, IsTenant(tenant), own) ==> IsVerdict(Links(own), v)
    {
      OfTenantIsFiltered(rows, tenant);
      forall own | IsFiltered(rows, IsTenant(tenant), own)
        ensures own == OfTenant(rows, tenant)
      {
        FilteredIsUnique(rows, IsTenant(tenant), own, OfTenant(rows, tenant));
      }
      v := VerifyChain(Links(OfTenant(rows, tenant)));
    }
  }

  /** The log after recording `payloads` in order, tenants interleaved as they come. */
  function Recorded(digest: Digest, payloads: seq<Payload>): seq<Row> {
    if |payloads| == 0 then [] else
    var rows := Recorded(digest, payloads[..|payloads| - 1]);
    rows + [NextRow(digest, rows, payloads[|payloads| - 1])]
  }

  // ---------------------------------------------------------------------------------------
  // Recorded chains

  /** Every row hashes its payload with its predecessor's hash and points at it. */
  ghost predicate IsChain(digest: Digest, rows: seq<Row>) {
    forall i :: 0 <= i < |rows| ==> IsLinked(digest, rows, i)
  }

  ghost predicate IsLinked(digest: Digest, rows: seq<Row>, i: nat)
    requires i < |rows|
  {
    && rows[i].link.previousHash == ExpectedPrevious(Links(rows), i)
    && rows[i].link.hash == ComputeHash(digest, rows[i].payload, rows[i].link.previousHash)
  }

  lemma ChainExtends(digest: Digest, rows: seq<Row>, next: Row)
    requires IsChain(digest, rows)
    requires next.link.previousHash == LastHash(rows)
    requires next.link.hash == ComputeHash(digest, next.payload, next.link.previousHash)
    ensures IsChain(digest, rows + [next])
  {
    var after := rows + [next];
    forall i | 0 <= i < |after|
      ensures IsLinked(digest, after, i)
    {
      if i < |rows| {
        assert after[i] == rows[i] && IsLinked(digest, rows, i);
        assert ExpectedPrevious(Links(after), i) == ExpectedPrevious(Links(rows), i);
      }
    }
  }

  /** Each tenant's rows form a chain of their own. */
  lemma {:induction false} RecordedIsChain(digest: Digest, payloads: seq<Payload>, tenant: string)
    ensures IsChain(digest, OfTenant(Recorded(digest, payloads), tenant))
  {
    if |payloads| > 0 {
      var front, payload := payloads[..|payloads| - 1], payloads[|payloads| - 1];
      RecordedIsChain(digest, front, tenant);
      var rows := Recorded(digest, front);
      var next := NextRow(digest, rows, payload);
      assert (rows + [next])[..|rows|] == rows;
      if payload.tenant == tenant {
        ChainExtends(digest, OfTenant(rows, tenant), next);
      }
    }
  }

  /** Every recorded row links to the newest earlier row of its own tenant, the first to none. */
  lemma {:induction false} RecordedRowLinks(digest: Digest, payloads: seq<Payload>, k: nat)
    requires k < |payloads|
    ensures var rows := Recorded(digest, payloads);
            |rows| == |payloads| && LinksToNewest(digest, rows[..k], payloads[k], rows[k])
    decreases |payloads|
  {
    var n := |payloads| - 1;
    var before := Recorded(digest, payloads[..n]);
    RecordedLength(digest, payloads);
    RecordedLength(digest, payloads[..n]);
    assert Recorded(digest, payloads)[..n] == before;
    if k < n {
      RecordedRowLinks(digest, payloads[..n], k);
      assert Recorded(digest, payloads)[..k] == before[..k];
    } else {
      NextRowLinks(digest, before, payloads[n]);
    }
  }

  lemma {:induction false} RecordedLength(digest: Digest, payloads: seq<Payload>)
    ensures |Recorded(digest, payloads)| == |payloads|
  {
    if |payloads| > 0 {
      RecordedLength(digest, payloads[..|payloads| - 1]);
    }
  }

  // ---------------------------------------------------------------------------------------
  // Other tenants

  lemma RecordingElsewhere(digest: Digest, rows: seq<Row>, payload: Payload, tenant: string)
    requires payload.tenant != tenant
    ensures OfTenant(rows + [NextRow(digest, rows, payload)], tenant) == OfTenant(rows, tenant)
  {
    var next := NextRow(digest, rows, payload);
    assert (rows + [next])[..|rows|] == rows;
  }

  /** The deletions spare the tenant's rows. */
  ghost predicate Spares(rows: seq<Row>, keep: seq<nat>, tenant: string) {
    forall k: nat :: k < |rows| && rows[k].payload.tenant == tenant ==> k in keep
  }

  lemma {:induction false} DeletingElsewhere(rows: seq<Row>, keep: seq<nat>, tenant: string)
    requires IsSelection(keep, |rows|) && Spares(rows, keep, tenant)
    ensures OfTenant(Selected(rows, keep), tenant) == OfTenant(rows, tenant)
    decreases |rows|
  {
    if |rows| > 0 {
      var n := |rows| - 1;
      SelectedFront(rows, keep);
      if keep != [] && keep[|keep| - 1] == n {
        var front := keep[..|keep| - 1];
        assert keep == front + [n];
        DeletingElsewhere(rows[..n], front, tenant);
        assert Selected(rows, keep)[..|keep| - 1] == Selected(rows[..n], front);
      } else {
        assert n !in keep;
        DeletingElsewhere(rows[..n], keep, tenant);
      }
    }
  }

  /** Neither recording nor deleting rows of other tenants changes a tenant's verdict. */
  lemma OtherTenantsDoNotMatter(
    digest: Digest, rows: seq<Row>, payload: Payload, keep: seq<nat>, tenant: string, v: Verdict)
    requires payload.tenant != tenant && IsSelection(keep, |rows|) && Spares(rows, keep, tenant)
    ensures var more := rows + [NextRow(digest, rows, payload)];
            IsVerdict(Links(OfTenant(more, tenant)), v) <==> IsVerdict(Links(OfTenant(rows, tenant)), v)
    ensures IsVerdict(Links(OfTenant(Selected(rows, keep), tenant)), v) <==> IsVerdict(Links(OfTenant(rows, tenant)), v)
  {
    RecordingElsewhere(digest, rows, payload, tenant);
    DeletingElsewhere(rows, keep, tenant);
  }

  /** The text that a row's digest takes for its predecessor. */
  ghost function PreviousText(rows: seq<Row>, i: nat): string
    requires i < |rows|
  {
    if i == 0 then GENESIS else rows[i - 1].link.hash
  }

  lemma ChainRow(digest: Digest, rows: seq<Row>, i: nat)
    requires IsChain(digest, rows) && i < |rows|
    ensures rows[i].link.hash == digest(rows[i].payload, PreviousText(rows, i))
    ensures rows[i].link.previousHash == if i == 0 then None else Some(rows[i - 1].link.hash)
  {
    assert IsLinked(digest, rows, i);
  }

  lemma DigestIsInjective(digest: Digest, p: Payload, h: string, p': Payload, h': string)
    requires GoodDigest(digest) && digest(p, h) == digest(p', h')
    ensures h == h'
  {
    assert Collides(digest, p, h, p', h');
  }

  lemma DigestAvoidsGenesis(digest: Digest, p: Payload, h: string)
    requires GoodDigest(digest)
    ensures digest(p, h) != GENESIS
  {
    assert !YieldsGenesis(digest, p, h);
  }

  /** Equal hashes have equal predecessors, so neither row is the first. */
  lemma EqualHashesStepBack(digest: Digest, rows: seq<Row>, i: nat, j: nat)
    requires GoodDigest(digest) && IsChain(digest, rows) && i < j < |rows|
    requires rows[i].link.hash == rows[j].link.hash
    ensures i > 0 && rows[i - 1].link.hash == rows[j - 1].link.hash
  {
    ChainRow(digest, rows, i);
    ChainRow(digest, rows, j);
    ChainRow(digest, rows, j - 1);
    DigestIsInjective(digest, rows[i].payload, PreviousText(rows, i), rows[j].payload, PreviousText(rows, j));
    DigestAvoidsGenesis(digest, rows[j - 1].payload, PreviousText(rows, j - 1));
  }

  /** Distinctness of hashes follows from injectivity: equal hashes would unwind to GENESIS. */
  lemma {:induction false} HashesAreDistinct(digest: Digest, rows: seq<Row>, i: nat, j: nat)
    requires GoodDigest(digest) && IsChain(digest, rows) && i < j < |rows|
    ensures rows[i].link.hash != rows[j].link.hash
    decreases i
  {
    if rows[i].link.hash == rows[j].link.hash {
      EqualHashesStepBack(digest, rows, i, j);
      HashesAreDistinct(digest, rows, i - 1, j - 1);
    }
  }

  // ---------------------------------------------------------------------------------------
  // Sub-histories: what survives when rows are deleted anywhere

  /** The first `n` kept rows are the first `n` rows. */
  ghost predicate KeepsPrefix(keep: seq<nat>, n: nat) {
    n <= |keep| && forall i :: 0 <= i < n ==> keep[i] == i
  }

  /** A kept row links to its kept predecessor exactly when no row between them was deleted. */
  lemma KeptRowLinksIff(digest: Digest, rows: seq<Row>, keep: seq<nat>, i: nat)
    requires GoodDigest(digest) && IsChain(digest, rows) && IsSelection(keep, |rows|) && i < |keep|
    ensures var logs := Links(Selected(rows, keep));
            LinksBack(logs, i) <==> keep[i] == if i == 0 then 0 else keep[i - 1] + 1
  {
    var logs, k := Links(Selected(rows, keep)), keep[i];
    assert IsLinked(digest, rows, k);
    if i > 0 && k > 0 {
      var p := keep[i - 1];
      assert p < k;
      if p < k - 1 {
        HashesAreDistinct(digest, rows, p, k - 1);
      }
    }
  }

  lemma {:induction false} LinkedSelectionIsPrefix(digest: Digest, rows: seq<Row>, keep: seq<nat>, n: nat)
    requires GoodDigest(digest) && IsChain(digest, rows) && IsSelection(keep, |rows|) && n <= |keep|
    ensures LinkedUpTo(Links(Selected(rows, keep)), n) <==> KeepsPrefix(keep, n)
    decreases n
  {
    if n > 0 {
      LinkedSelectionIsPrefix(digest, rows, keep, n - 1);
      KeptRowLinksIff(digest, rows, keep, n - 1);
    }
  }

  /** The length of the longest common prefix of the kept rows and the full history. */
  ghost predicate IsCommonPrefix(rows: seq<Row>, sub: seq<Row>, n: nat) {
    && n <= |rows| && n <= |sub| && rows[..n] == sub[..n]
    && (n < |rows| && n < |sub| ==> rows[n] != sub[n])
  }

  /**
   * A sub-history of a recorded chain verifies exactly when it is a prefix, and otherwise the
   * reported position is the length of its longest common prefix with the full history.
   */
  lemma SubHistoryVerifiesIffPrefix(digest: Digest, payloads: seq<Payload>, tenant: string, keep: seq<nat>, v: Verdict)
    requires GoodDigest(digest)
    requires IsSelection(keep, |OfTenant(Recorded(digest, payloads), tenant)|)
    requires IsVerdict(Links(Selected(OfTenant(Recorded(digest, payloads), tenant), keep)), v)
    ensures var rows := OfTenant(Recorded(digest, payloads), tenant);
            var sub := Selected(rows, keep);
            && (v.Valid? <==> sub <= rows)
            && (v.BrokenAt? ==> IsCommonPrefix(rows, sub, v.index))
  {
    var rows := OfTenant(Recorded(digest, payloads), tenant);
    RecordedIsChain(digest, payloads, tenant);
    LinkedSelectionIsPrefix(digest, rows, keep, |keep|);
    PrefixIff(digest, rows, keep);
    if v.BrokenAt? {
      BreakIsCommonPrefix(digest, rows, keep, v.index);
    }
  }

  lemma BreakIsCommonPrefix(digest: Digest, rows: seq<Row>, keep: seq<nat>, n: nat)
    requires GoodDigest(digest) && IsChain(digest, rows) && IsSelection(keep, |rows|) && n < |keep|
    requires LinkedUpTo(Links(Selected(rows, keep)), n) && !LinksBack(Links(Selected(rows, keep)), n)
    ensures IsCommonPrefix(rows, Selected(rows, keep), n)
  {
    LinkedSelectionIsPrefix(digest, rows, keep, n);
    KeptRowLinksIff(digest, rows, keep, n);
    assert keep[n] > n by {
      if n > 0 {
        assert keep[n - 1] == n - 1 && keep[n - 1] < keep[n];
      }
    }
    HashesAreDistinct(digest, rows, n, keep[n]);
    assert rows[..n] == Selected(rows, keep)[..n];
  }

  lemma PrefixIff(digest: Digest, rows: seq<Row>, keep: seq<nat>)
    requires GoodDigest(digest) && IsChain(digest, rows) && IsSelection(keep, |rows|)
    ensures KeepsPrefix(keep, |keep|) <==> Selected(rows, keep) <= rows
  {
    var sub := Selected(rows, keep);
    if KeepsPrefix(keep, |keep|) {
      if |keep| > 0 {
        assert keep[|keep| - 1] == |keep| - 1 < |rows|;
      }
      assert rows[..|sub|] == sub;
    }
    if sub <= rows {
      forall i | 0 <= i < |keep|
        ensures keep[i] == i
      {
        assert sub[i] == rows[i] == rows[keep[i]];
        if keep[i] < i {
          HashesAreDistinct(digest, rows, keep[i], i);
        } else if i < keep[i] {
          HashesAreDistinct(digest, rows, i, keep[i]);
        }
      }
    }
  }

  /** Keeping every row is the case of an undisturbed log: it verifies. */
  lemma RecordedLogVerifies(digest: Digest, payloads: seq<Payload>, tenant: string)
    ensures var logs := Links(OfTenant(Recorded(digest, payloads), tenant)); LinkedUpTo(logs, |logs|)
  {
    RecordedIsChain(digest, payloads, tenant);
    var rows := OfTenant(Recorded(digest, payloads), tenant);
    forall i | 0 <= i < |rows|
      ensures LinksBack(Links(rows), i)
    {
      assert IsLinked(digest, rows, i);
    }
  }

  // ---------------------------------------------------------------------------------------
  // Edits in place

  lemma VerdictIsUnique(logs: seq<Link>, v: Verdict, w: Verdict)
    requires IsVerdict(logs, v) && IsVerdict(logs, w)
    ensures v == w
  {
    if v.BrokenAt? && w.BrokenAt? {
      assert !(v.index < w.index) && !(w.index < v.index);
    }
  }

  /** The verdict on a chain in which row `k` was replaced. */
  ghost function VerdictAfterEdit(rows: seq<Row>, k: nat, r: Row): Verdict
    requires k < |rows|
  {
    if r.link.previousHash != rows[k].link.previousHash then BrokenAt(k)
    else if k + 1 < |rows| && r.link.hash != rows[k].link.hash then BrokenAt(k + 1)
    else Valid
  }

  /**
   * Replacing one row of a chain is noticed exactly when the new row points elsewhere, or when its
   * hash differs and another row follows; the verdict names the first row that no longer links.
   */
  lemma EditVerdict(digest: Digest, rows: seq<Row>, k: nat, r: Row, v: Verdict)
    requires IsChain(digest, rows) && k < |rows|
    ensures IsVerdict(Links(rows[k := r]), v) <==> v == VerdictAfterEdit(rows, k, r)
  {
    var logs := Links(rows[k := r]);
    forall i | 0 <= i < |rows|
      ensures LinksBack(logs, i) <==>
              if i == k then r.link.previousHash == rows[k].link.previousHash
              else i != k + 1 || r.link.hash == rows[k].link.hash
    {
      assert IsLinked(digest, rows, i);
    }
    var expected := VerdictAfterEdit(rows, k, r);
    if expected.BrokenAt? {
      assert !LinksBack(logs, expected.index);
    }
    assert IsVerdict(logs, expected);
    if IsVerdict(logs, v) {
      VerdictIsUnique(logs, v, expected);
    }
  }

  /** Of a recorded log: which replacements of one row pass verification. */
  lemma EditPassesIff(digest: Digest, payloads: seq<Payload>, tenant: string, k: nat, r: Row)
    requires k < |OfTenant(Recorded(digest, payloads), tenant)|
    ensures var rows := OfTenant(Recorded(digest, payloads), tenant);
            IsVerdict(Links(rows[k := r]), Valid) <==>
            && r.link.previousHash == rows[k].link.previousHash
            && (k == |rows| - 1 || r.link.hash == rows[k].link.hash)
  {
    RecordedIsChain(digest, payloads, tenant);
    EditVerdict(digest, OfTenant(Recorded(digest, payloads), tenant), k, r, Valid);
  }

  /** A row's payload rewritten, with the stored hash left alone or computed afresh. */
  function Rewritten(digest: Digest, row: Row, payload: Payload, rehash: bool): Row {
    var previous := row.link.previousHash;
    Row(payload, Link(if rehash then ComputeHash(digest, payload, previous) else row.link.hash, previous))
  }

  /**
   * Rewriting a payload is noticed exactly when the hash is recomputed, the payload really
   * differs and another row follows. The stored hash is never compared with the payload, so a
   * rewrite that leaves it alone always passes.
   */
  lemma RewriteNoticedIff(
    digest: Digest, payloads: seq<Payload>, tenant: string, k: nat, payload: Payload, rehash: bool)
    requires GoodDigest(digest) && k < |OfTenant(Recorded(digest, payloads), tenant)|
    ensures var rows := OfTenant(Recorded(digest, payloads), tenant);
            !IsVerdict(Links(rows[k := Rewritten(digest, rows[k], payload, rehash)]), Valid) <==>
            rehash && payload != rows[k].payload && k < |rows| - 1
  {
    var rows := OfTenant(Recorded(digest, payloads), tenant);
    RecordedIsChain(digest, payloads, tenant);
    EditPassesIff(digest, payloads, tenant, k, Rewritten(digest, rows[k], payload, rehash));
    ChainRow(digest, rows, k);
    var h := PreviousText(rows, k);
    if rehash && digest(payload, h) == digest(rows[k].payload, h) {
      assert Collides(digest, payload, h, rows[k].payload, h);
    }
  }

  /** A log with every payload of a recorded one rewritten, its links kept, verifies. */
  lemma PayloadRewritesGoUnnoticed(digest: Digest, payloads: seq<Payload>, tenant: string, other: seq<Row>)
    requires var rows := OfTenant(Recorded(digest, payloads), tenant);
             |other| == |rows| && forall i :: 0 <= i < |rows| ==> other[i].link == rows[i].link
    ensures IsVerdict(Links(other), Valid)
  {
    RecordedLogVerifies(digest, payloads, tenant);
    assert Links(other) == Links(OfTenant(Recorded(digest, payloads), tenant));
  }
}
