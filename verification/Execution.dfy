/**
 * Threading account states through the calls: one account touched by one call at a time.
 *
 * Rejection (a failed assertion in the circuit) is `None`.
 */
module Execution {
  import opened Prelude
  import opened Programs
  import opened CallTrees
  import opened Identities

  /** One account of one call: the state it came in with and the state the program left. */
  datatype Touch = Touch(
    program: ProgramId,
    caller: Option<ProgramId>,
    seeds: seq<PdaSeed>,
    pre: AccountWithMetadata,
    post: AccountPostState)
  {
    function Id(): AccountId {
      pre.accountId
    }

    /** The recorded post state: a claim makes the program the owner. */
    function Settled(): Account {
      if post.claim.Some? then post.account.(programOwner := program) else post.account
    }
  }

  /** A (program, seed) pair found to stand for an account; the position if as a private PDA. */
  datatype Resolution = Resolution(program: ProgramId, seed: PdaSeed, accountId: AccountId, position: Option<nat>)

  /** The derivation behind a resolution really gives the account. */
  predicate Derives(d: Derivations, ids: seq<InputAccountIdentity>, r: Resolution) {
    match r.position
    case None => d.forPublicPda(r.program, r.seed) == r.accountId
    case Some(pos) =>
      var keys := KeysAt(d, ids, pos);
      keys.Some? && d.PrivatePda(r.program, r.seed, keys.value) == r.accountId
  }

  datatype Bindings = Bindings(
    bound: map<nat, (ProgramId, PdaSeed)>,
    family: map<(ProgramId, PdaSeed), AccountId>)

  predicate Recorded(b: Bindings, r: Resolution) {
    && (r.program, r.seed) in b.family && b.family[(r.program, r.seed)] == r.accountId
    && (r.position.Some? ==> r.position.value in b.bound && b.bound[r.position.value] == (r.program, r.seed))
  }

  predicate Conflicts(b: Bindings, r: Resolution) {
    || ((r.program, r.seed) in b.family && b.family[(r.program, r.seed)] != r.accountId)
    || (r.position.Some? && r.position.value in b.bound && b.bound[r.position.value] != (r.program, r.seed))
  }

  /** Records a resolution, unless it conflicts with an earlier one. */
  function Record(b: Bindings, r: Option<Resolution>): (b': Option<Bindings>)
    ensures b'.Some? && r.Some? ==> Recorded(b'.value, r.value)
    ensures b'.Some? ==> b.bound.Keys <= b'.value.bound.Keys && b.family.Keys <= b'.value.family.Keys
    ensures b'.Some? ==> forall q :: Recorded(b, q) ==> Recorded(b'.value, q)
  {
    match r
    case None => Some(b)
    case Some(r) =>
      if Conflicts(b, r) then None
      else Some(Bindings(
        if r.position.Some? then b.bound[r.position.value := (r.program, r.seed)] else b.bound,
        b.family[(r.program, r.seed) := r.accountId]))
  }

  lemma RecordNothing(b: Bindings)
    ensures Record(b, None) == Some(b)
  {
  }

  datatype Exec = Exec(
    pre: seq<AccountWithMetadata>,
    post: map<AccountId, Account>,
    bindings: Bindings,
    authorized: set<AccountId>)

  const EMPTY: Exec := Exec([], map[], Bindings(map[], map[]), {})

  function Position(pre: seq<AccountWithMetadata>, id: AccountId): (r: Option<nat>)
    ensures r.Some? ==> r.value < |pre| && pre[r.value].accountId == id
    ensures r.None? ==> forall k :: 0 <= k < |pre| ==> pre[k].accountId != id
  {
    FirstIndex(pre, (a: AccountWithMetadata) => a.accountId == id)
  }

  /** The first listed seed under which `caller` derives the account, and in which form. */
  function MatchedSeed(d: Derivations, keys: Option<PdaKeys>, caller: ProgramId, seeds: seq<PdaSeed>, id: AccountId)
    : (r: Option<(PdaSeed, bool)>)
  {
    if seeds == [] then None
    else if d.forPublicPda(caller, seeds[0]) == id then Some((seeds[0], false))
    else if keys.Some? && d.PrivatePda(caller, seeds[0], keys.value) == id then Some((seeds[0], true))
    else MatchedSeed(d, keys, caller, seeds[1..], id)
  }

  /** What an already-seen account resolves to through its immediate caller's seeds. */
  function CallerResolution(d: Derivations, ids: seq<InputAccountIdentity>, t: Touch, pos: nat): Option<Resolution> {
    var caller :- t.caller;
    var (seed, isPrivate) :- MatchedSeed(d, KeysAt(d, ids, pos), caller, t.seeds, t.Id());
    Some(Resolution(caller, seed, t.Id(), if isPrivate then Some(pos) else None))
  }

  /** What a newly seen account resolves to through a seed supplied with the input. */
  function ExternalResolution(ids: seq<InputAccountIdentity>, t: Touch, pos: nat): Option<Resolution> {
    if pos >= |ids| then None
    else
      var (seed, authority) :- ids[pos].ExternalSeed();
      Some(Resolution(authority, seed, t.Id(), Some(pos)))
  }

  /** What a PDA claim resolves to. */
  function ClaimResolution(ids: seq<InputAccountIdentity>, t: Touch, pos: nat): Option<Resolution> {
    match t.post.claim
    case Some(Pda(seed)) =>
      Some(Resolution(t.program, seed, t.Id(), if pos < |ids| && ids[pos].Public? then None else Some(pos)))
    case _ => None
  }

  /** An account seen for the first time, at the next position. */
  function FirstSeen(d: Derivations, ids: seq<InputAccountIdentity>, x: Exec, t: Touch): Option<Exec> {
    var r := ExternalResolution(ids, t, |x.pre|);
    if r.Some? && (!Derives(d, ids, r.value) || t.pre.isAuthorized) then None
    else
      var b :- Record(x.bindings, r);
      Some(x.(pre := x.pre + [t.pre], bindings := b))
  }

  /** An account seen before: it must come in as it was left, with the flag history gives it. */
  function SeenAgain(d: Derivations, ids: seq<InputAccountIdentity>, x: Exec, t: Touch): Option<Exec>
    requires t.Id() in x.post
  {
    var pos :- Position(x.pre, t.Id());
    var r := CallerResolution(d, ids, t, pos);
    var b :- Record(x.bindings, r);
    var flag := t.Id() in x.authorized || x.pre[pos].isAuthorized || r.Some?;
    if x.post[t.Id()] != t.pre.account || t.pre.isAuthorized != flag then None
    else Some(x.(bindings := b, authorized := if flag then x.authorized + {t.Id()} else x.authorized))
  }

  /** A claim: only on an account without an owner; a public one must be authorized or derived. */
  function ApplyClaim(d: Derivations, ids: seq<InputAccountIdentity>, x: Exec, t: Touch): Option<Exec> {
    if t.post.claim.None? then Some(x)
    else
      var pos :- Position(x.pre, t.Id());
      var r := ClaimResolution(ids, t, pos);
      if t.post.account.programOwner != DEFAULT_PROGRAM_ID || pos >= |ids| then None
      else if ids[pos].Public? && t.post.claim.value.Authorized? && !t.pre.isAuthorized then None
      else if r.Some? && !Derives(d, ids, r.value) then None
      else
        var b :- Record(x.bindings, r);
        Some(x.(bindings := b))
  }

  function SyncOne(d: Derivations, ids: seq<InputAccountIdentity>, x: Exec, t: Touch): Option<Exec> {
    var y :- if t.Id() in x.post then SeenAgain(d, ids, x, t) else FirstSeen(d, ids, x, t);
    var z :- ApplyClaim(d, ids, y, t);
    Some(z.(post := z.post[t.Id() := t.Settled()]))
  }

  function Sync(d: Derivations, ids: seq<InputAccountIdentity>, x: Exec, ts: seq<Touch>): Option<Exec> {
    if ts == [] then Some(x)
    else
      var y :- Sync(d, ids, x, ts[..|ts| - 1]);
      SyncOne(d, ids, y, ts[|ts| - 1])
  }

  /** The accounts of one call, in order. */
  function TouchesOf(v: Visit): (r: seq<Touch>)
    ensures |r| <= |v.output.preStates|
    ensures |v.output.preStates| == |v.output.postStates| ==> |r| == |v.output.preStates|
    ensures forall i :: 0 <= i < |r| ==>
              && i < |v.output.postStates|
              && r[i] == Touch(v.call.programId, v.caller, v.call.pdaSeeds,
                               v.output.preStates[i], v.output.postStates[i])
  {
    var n := if |v.output.preStates| <= |v.output.postStates| then |v.output.preStates| else |v.output.postStates|;
    seq(n, i requires 0 <= i < n =>
      Touch(v.call.programId, v.caller, v.call.pdaSeeds, v.output.preStates[i], v.output.postStates[i]))
  }

  function Touches(vs: seq<Visit>): seq<Touch> {
    if vs == [] then [] else Touches(vs[..|vs| - 1]) + TouchesOf(vs[|vs| - 1])
  }

  /**
   * The touches of a list of calls, one by one: each account of each call in order, by the
   * program called, for its caller and with the seeds the caller passed on.
   */
  lemma {:induction false} TouchAt(vs: seq<Visit>, i: nat, j: nat)
    requires i < |vs| && j < |vs[i].output.preStates| && j < |vs[i].output.postStates|
    ensures |Touches(vs[..i])| + j < |Touches(vs)|
    ensures Touches(vs)[|Touches(vs[..i])| + j] ==
            Touch(vs[i].call.programId, vs[i].caller, vs[i].call.pdaSeeds,
                  vs[i].output.preStates[j], vs[i].output.postStates[j])
    decreases |vs|
  {
    var n := |vs| - 1;
    if i < n {
      TouchAt(vs[..n], i, j);
      assert vs[..n][..i] == vs[..i];
    }
  }

  lemma {:induction false} SyncConcat(d: Derivations, ids: seq<InputAccountIdentity>, x: Exec,
                                      a: seq<Touch>, b: seq<Touch>)
    ensures Sync(d, ids, x, a + b) ==
            match Sync(d, ids, x, a) case None => None case Some(y) => Sync(d, ids, y, b)
    decreases |b|
  {
    hide SyncOne;
    if b == [] {
      assert a + b == a;
    } else {
      var n := |b| - 1;
      SyncConcat(d, ids, x, a, b[..n]);
      var all := a + b;
      assert all[..|all| - 1] == a + b[..n] && all[|all| - 1] == b[n];
    }
  }

  /** An accepted run is accepted up to every point. */
  lemma SyncPrefix(d: Derivations, ids: seq<InputAccountIdentity>, x: Exec, ts: seq<Touch>, k: nat)
    requires k <= |ts| && Sync(d, ids, x, ts).Some?
    ensures Sync(d, ids, x, ts[..k]).Some?
  {
    assert ts == ts[..k] + ts[k..];
    SyncConcat(d, ids, x, ts[..k], ts[k..]);
  }
}
