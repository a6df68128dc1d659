/** The entry points of the four pipeline phases and their result callbacks,
    seen through what they do to the worker's connection pool: each entry
    point either answers at once or leases a handle, starts the exchange and
    yields holding it; the matching result callback classifies the response,
    then cleans the handle up and releases it. */
module Lifecycle {
  import opened Wrappers
  import opened Rcodes
  import opened Classifier
  import Resolver

  /** A pooled connection handle. */
  datatype Handle = Handle(id: nat)

  /** What happens to handles, in order. */
  datatype Event = Leased(handle: Handle) | Cleaned(handle: Handle) | Released(handle: Handle)

  /** A worker's pool: the handles currently leased out, and the history of
      leases, cleanups and releases. */
  datatype Pool = Pool(leased: set<Handle>, log: seq<Event>)

  /** The module's pipeline components, each with its entry point. */
  datatype Component = ModAuthorize | ModAuthenticate | ModAccounting | ModPostAuth

  /** An entry point's answer: a return code now, or a yield that holds the
      leased handle until `resume`'s result callback runs. `cancellable` says
      whether a cancel action was registered with the yield. */
  datatype Entry = Done(code: Rcode) | Yield(handle: Handle, resume: Component, cancellable: bool)

  /** The User-Password attribute number of RFC 2865, section 5.2. */
  const UserPassword: nat := 2

  datatype Attribute = Attribute(number: nat, value: string)

  /** The request attributes the entry points look at. */
  datatype Request = Request(userName: Option<Attribute>, password: Option<Attribute>)

  /** The steps of starting an exchange, each done by a collaborator this
      model does not see; only their answers are modelled. */
  datatype Step = BuildUri | ConfigureRequest | Enqueue

  /** The collaborators' answers: the expanded URI's length, and the status
      of configuring and of enqueueing the request. */
  datatype Transport = Transport(uriLen: int, configStatus: int, enqueueStatus: int)

  /** What the transport reports once an exchange completes: whether the
      status attribute could be recorded, the HTTP status, and the body
      decoder's answer for a given section. */
  datatype Exchange = Exchange(statusUpdated: bool, status: int, decode: Resolver.Section -> int)

  /** A result callback's conclusion, and whether it extracted certificate
      attributes before classifying. */
  datatype Outcome = Outcome(verdict: Verdict, certExtracted: bool)

  function Count(log: seq<Event>, e: Event): nat
  {
    if |log| == 0 then 0 else (if log[0] == e then 1 else 0) + Count(log[1..], e)
  }

  lemma {:induction false} CountAppend(a: seq<Event>, b: seq<Event>, e: Event)
    ensures Count(a + b, e) == Count(a, e) + Count(b, e)
  {
    if |a| == 0 {
      assert a + b == b;
    } else {
      assert (a + b)[1..] == a[1..] + b;
      CountAppend(a[1..], b, e);
    }
  }

  /** Every handle has been released once for each lease, except that the
      handles leased out now have one lease outstanding. */
  ghost predicate Balanced(p: Pool)
  {
    forall h :: Count(p.log, Leased(h)) == Count(p.log, Released(h)) + (if h in p.leased then 1 else 0)
  }

  /** Every release directly follows the cleanup of the same handle. */
  ghost predicate CleanedBeforeRelease(log: seq<Event>)
  {
    forall i :: 0 <= i < |log| && log[i].Released? ==> 0 < i && log[i - 1] == Cleaned(log[i].handle)
  }

  /** `fr_connection_get` succeeding with `h`. */
  function Lease(p: Pool, h: Handle): Pool
  {
    Pool(p.leased + {h}, p.log + [Leased(h)])
  }

  /** `rest_request_cleanup` then `fr_connection_release`. */
  function CleanupAndRelease(p: Pool, h: Handle): Pool
  {
    Pool(p.leased - {h}, p.log + [Cleaned(h), Released(h)])
  }

  lemma LeaseKeepsBalance(p: Pool, h: Handle)
    requires Balanced(p) && h !in p.leased
    ensures Balanced(Lease(p, h))
    ensures CleanedBeforeRelease(p.log) ==> CleanedBeforeRelease(Lease(p, h).log)
  {
    forall g
      ensures Count(Lease(p, h).log, Leased(g))
              == Count(Lease(p, h).log, Released(g)) + (if g in Lease(p, h).leased then 1 else 0)
    {
      CountAppend(p.log, [Leased(h)], Leased(g));
      CountAppend(p.log, [Leased(h)], Released(g));
    }
  }

  lemma ReleaseKeepsBalance(p: Pool, h: Handle)
    requires Balanced(p) && h in p.leased
    ensures Balanced(CleanupAndRelease(p, h))
    ensures CleanedBeforeRelease(p.log) ==> CleanedBeforeRelease(CleanupAndRelease(p, h).log)
  {
    forall g
      ensures Count(CleanupAndRelease(p, h).log, Leased(g))
              == Count(CleanupAndRelease(p, h).log, Released(g)) + (if g in CleanupAndRelease(p, h).leased then 1 else 0)
    {
      var tail := [Cleaned(h), Released(h)];
      CountAppend(p.log, tail, Leased(g));
      CountAppend(p.log, tail, Released(g));
      assert tail[1..] == [Released(h)] && [Released(h)][1..] == [];
      assert Count([Released(h)], Leased(g)) == 0;
      assert Count([Released(h)], Released(g)) == if g == h then 1 else 0;
      assert Count(p.log, Leased(g)) == Count(p.log, Released(g)) + (if g in p.leased then 1 else 0);
    }
  }

  /** `rlm_rest_perform`: build the URI, configure the request, enqueue it;
      the answer is the first step that failed, and nothing after it runs. */
  function Perform(io: Transport): (r: Option<Step>)
    ensures r.None? <==> io.uriLen > 0 && io.configStatus >= 0 && io.enqueueStatus >= 0
    ensures r == Some(BuildUri) <==> io.uriLen <= 0
    ensures r == Some(ConfigureRequest) ==> io.uriLen > 0 && io.configStatus < 0
    ensures r == Some(Enqueue) ==> io.uriLen > 0 && io.configStatus >= 0 && io.enqueueStatus < 0
  {
    if io.uriLen <= 0 then Some(BuildUri)
    else if io.configStatus < 0 then Some(ConfigureRequest)
    else if io.enqueueStatus < 0 then Some(Enqueue)
    else None
  }

  /** The part every entry point shares once its own guards pass: lease a
      handle (failing if the pool has none), start the exchange, and either
      give the handle back and fail, or yield holding it. */
  function Dispatch(p: Pool, lease: Option<Handle>, io: Transport, resume: Component, cancellable: bool): (r: (Pool, Entry))
    requires lease.Some? ==> lease.value !in p.leased
    ensures lease.None? ==> r == (p, Done(Fail))
    ensures r.1.Yield? <==> lease.Some? && Perform(io).None?
    ensures r.1.Yield? ==> r.1 == Yield(lease.value, resume, cancellable) && r.0 == Lease(p, lease.value)
    ensures r.1.Done? ==> r.1.code == Fail && r.0.leased == p.leased
    ensures r.1.Done? && lease.Some? ==>
              r.0.log == p.log + [Leased(lease.value), Cleaned(lease.value), Released(lease.value)]
  {
    match lease
    case None => (p, Done(Fail))
    case Some(h) =>
      var held := Lease(p, h);
      if Perform(io).Some? then (CleanupAndRelease(held, h), Done(Fail))
      else (held, Yield(h, resume, cancellable))
  }

  /** `mod_authorize`: the only entry point that registers a cancel action. */
  function Authorize(inst: Resolver.Instance, p: Pool, lease: Option<Handle>, io: Transport): (r: (Pool, Entry))
    requires lease.Some? ==> lease.value !in p.leased
    ensures inst.authorize.name.None? ==> r == (p, Done(Noop))
    ensures r.1.Yield? <==> inst.authorize.name.Some? && lease.Some? && Perform(io).None?
    ensures r.1.Yield? ==> r.1.resume == ModAuthorize && r.1.cancellable && r.0.leased == p.leased + {r.1.handle}
    ensures r.1.Done? ==> r.1.code in {Noop, Fail} && r.0.leased == p.leased
  {
    if inst.authorize.name.None? then (p, Done(Noop))
    else Dispatch(p, lease, io, ModAuthorize, true)
  }

  /** The request carries a User-Name and a password that is a
      User-Password attribute. */
  predicate HasCredentials(req: Request)
  {
    req.userName.Some? && req.password.Some? && req.password.value.number == UserPassword
  }

  /** `mod_authenticate`: before leasing anything it insists on a User-Name
      and a User-Password in the request. */
  function Authenticate(inst: Resolver.Instance, req: Request, p: Pool, lease: Option<Handle>, io: Transport): (r: (Pool, Entry))
    requires lease.Some? ==> lease.value !in p.leased
    ensures inst.authenticate.name.None? ==> r == (p, Done(Noop))
    ensures inst.authenticate.name.Some? && !HasCredentials(req) ==> r == (p, Done(Invalid))
    ensures r.1.Yield? <==> inst.authenticate.name.Some? && HasCredentials(req) && lease.Some? && Perform(io).None?
    ensures r.1.Yield? ==> r.1.resume == ModAuthenticate && !r.1.cancellable && r.0.leased == p.leased + {r.1.handle}
    ensures r.1.Done? ==> r.1.code in {Noop, Invalid, Fail} && r.0.leased == p.leased
  {
    if inst.authenticate.name.None? then (p, Done(Noop))
    else if req.userName.None? then (p, Done(Invalid))
    else if req.password.None? || req.password.value.number != UserPassword then (p, Done(Invalid))
    else Dispatch(p, lease, io, ModAuthenticate, false)
  }

  /** `mod_accounting`. */
  function Accounting(inst: Resolver.Instance, p: Pool, lease: Option<Handle>, io: Transport): (r: (Pool, Entry))
    requires lease.Some? ==> lease.value !in p.leased
    ensures inst.accounting.name.None? ==> r == (p, Done(Noop))
    ensures r.1.Yield? <==> inst.accounting.name.Some? && lease.Some? && Perform(io).None?
    ensures r.1.Yield? ==> r.1.resume == ModAccounting && !r.1.cancellable && r.0.leased == p.leased + {r.1.handle}
    ensures r.1.Done? ==> r.1.code in {Noop, Fail} && r.0.leased == p.leased
  {
    if inst.accounting.name.None? then (p, Done(Noop))
    else Dispatch(p, lease, io, ModAccounting, false)
  }

  /** `mod_post_auth`. */
  function PostAuth(inst: Resolver.Instance, p: Pool, lease: Option<Handle>, io: Transport): (r: (Pool, Entry))
    requires lease.Some? ==> lease.value !in p.leased
    ensures inst.postAuth.name.None? ==> r == (p, Done(Noop))
    ensures r.1.Yield? <==> inst.postAuth.name.Some? && lease.Some? && Perform(io).None?
    ensures r.1.Yield? ==> r.1.resume == ModPostAuth && !r.1.cancellable && r.0.leased == p.leased + {r.1.handle}
    ensures r.1.Done? ==> r.1.code in {Noop, Fail} && r.0.leased == p.leased
  {
    if inst.postAuth.name.None? then (p, Done(Noop))
    else Dispatch(p, lease, io, ModPostAuth, false)
  }

  /** The module's method table: the entry point of each component. */
  function Enter(c: Component, inst: Resolver.Instance, req: Request, p: Pool, lease: Option<Handle>, io: Transport): (r: (Pool, Entry))
    requires lease.Some? ==> lease.value !in p.leased
  {
    match c
    case ModAuthorize => Authorize(inst, p, lease, io)
    case ModAuthenticate => Authenticate(inst, req, p, lease, io)
    case ModAccounting => Accounting(inst, p, lease, io)
    case ModPostAuth => PostAuth(inst, p, lease, io)
  }

  /** The body shared by the result callbacks: certificate attributes and
      decoding follow the authenticate section whichever phase is resuming,
      the response is classified with `table`, and then the handle is
      cleaned up and released whatever the outcome. */
  function Finish(table: Table, inst: Resolver.Instance, p: Pool, h: Handle, ex: Exchange): (r: (Pool, Outcome))
    requires h in p.leased
  {
    var section := inst.authenticate;
    var verdict := Classify(table, ex.statusUpdated, ex.status, ex.decode(section));
    (CleanupAndRelease(p, h), Outcome(verdict, section.tls.extractCertAttrs))
  }

  /** `mod_authorize_result`. */
  function AuthorizeResult(inst: Resolver.Instance, p: Pool, h: Handle, ex: Exchange): (r: (Pool, Outcome))
    requires h in p.leased
    ensures r.0.leased == p.leased - {h} && r.0.log == p.log + [Cleaned(h), Released(h)]
    ensures r.1.certExtracted == inst.authenticate.tls.extractCertAttrs
    ensures r.1.verdict == Classify(AuthTable, ex.statusUpdated, ex.status, ex.decode(inst.authenticate))
  {
    Finish(AuthTable, inst, p, h, ex)
  }

  /** `mod_authenticate_result`. */
  function AuthenticateResult(inst: Resolver.Instance, p: Pool, h: Handle, ex: Exchange): (r: (Pool, Outcome))
    requires h in p.leased
    ensures r.0.leased == p.leased - {h} && r.0.log == p.log + [Cleaned(h), Released(h)]
    ensures r.1.certExtracted == inst.authenticate.tls.extractCertAttrs
    ensures r.1.verdict == Classify(AuthTable, ex.statusUpdated, ex.status, ex.decode(inst.authenticate))
  {
    Finish(AuthTable, inst, p, h, ex)
  }

  /** `mod_accounting_result`: reads the authenticate section, not the
      accounting one. */
  function AccountingResult(inst: Resolver.Instance, p: Pool, h: Handle, ex: Exchange): (r: (Pool, Outcome))
    requires h in p.leased
    ensures r.0.leased == p.leased - {h} && r.0.log == p.log + [Cleaned(h), Released(h)]
    ensures r.1.certExtracted == inst.authenticate.tls.extractCertAttrs
    ensures r.1.verdict == Classify(AcctTable, ex.statusUpdated, ex.status, ex.decode(inst.authenticate))
  {
    Finish(AcctTable, inst, p, h, ex)
  }

  /** `mod_post_auth_result`: reads the authenticate section, not the
      post-auth one. */
  function PostAuthResult(inst: Resolver.Instance, p: Pool, h: Handle, ex: Exchange): (r: (Pool, Outcome))
    requires h in p.leased
    ensures r.0.leased == p.leased - {h} && r.0.log == p.log + [Cleaned(h), Released(h)]
    ensures r.1.certExtracted == inst.authenticate.tls.extractCertAttrs
    ensures r.1.verdict == Classify(AcctTable, ex.statusUpdated, ex.status, ex.decode(inst.authenticate))
  {
    Finish(AcctTable, inst, p, h, ex)
  }

  /** The result callback a yield names. */
  function Resume(c: Component, inst: Resolver.Instance, p: Pool, h: Handle, ex: Exchange): (r: (Pool, Outcome))
    requires h in p.leased
  {
    match c
    case ModAuthorize => AuthorizeResult(inst, p, h, ex)
    case ModAuthenticate => AuthenticateResult(inst, p, h, ex)
    case ModAccounting => AccountingResult(inst, p, h, ex)
    case ModPostAuth => PostAuthResult(inst, p, h, ex)
  }

  /** One whole invocation of component `c`: its entry point, and, if that
      yields, the result callback it named once the exchange completes. */
  function Invoke(c: Component, inst: Resolver.Instance, req: Request, p: Pool, lease: Option<Handle>,
                  io: Transport, ex: Exchange): (r: (Pool, Rcode))
    requires lease.Some? ==> lease.value !in p.leased
  {
    var (p1, entry) := Enter(c, inst, req, p, lease, io);
    match entry
    case Done(code) => (p1, code)
    case Yield(h, resume, _) =>
      var (p2, outcome) := Resume(resume, inst, p1, h, ex);
      (p2, outcome.verdict.code)
  }

  /** A whole invocation gives back every handle it leases: either it never
      touched the pool, or it leased one handle, cleaned it up and released
      it exactly once, cleanup first. */
  lemma InvocationReleasesOnce(c: Component, inst: Resolver.Instance, req: Request, p: Pool,
                               lease: Option<Handle>, io: Transport, ex: Exchange)
    requires lease.Some? ==> lease.value !in p.leased
    ensures var r := Invoke(c, inst, req, p, lease, io, ex);
      && r.0.leased == p.leased
      && (r.0.log == p.log
          || (lease.Some? && r.0.log == p.log + [Leased(lease.value), Cleaned(lease.value), Released(lease.value)]))
    ensures var r := Invoke(c, inst, req, p, lease, io, ex);
      r.0.log != p.log ==>
        && Count(r.0.log, Released(lease.value)) == Count(p.log, Released(lease.value)) + 1
        && Count(r.0.log, Leased(lease.value)) == Count(p.log, Leased(lease.value)) + 1
  {
    var r := Invoke(c, inst, req, p, lease, io, ex);
    var (p1, entry) := Enter(c, inst, req, p, lease, io);
    if entry.Yield? {
      assert p1 == Lease(p, entry.handle);
      assert r.0 == CleanupAndRelease(p1, entry.handle);
      assert r.0.log == p.log + [Leased(entry.handle)] + [Cleaned(entry.handle), Released(entry.handle)];
    }
    if r.0.log != p.log {
      var h := lease.value;
      var tail := [Leased(h), Cleaned(h), Released(h)];
      assert r.0.log == p.log + tail;
      assert tail[1..] == [Cleaned(h), Released(h)] && tail[1..][1..] == [Released(h)] && [Released(h)][1..] == [];
      assert Count([Released(h)], Released(h)) == 1 && Count([Released(h)], Leased(h)) == 0;
      assert Count(tail[1..], Released(h)) == 1 && Count(tail[1..], Leased(h)) == 0;
      assert Count(tail, Released(h)) == 1 && Count(tail, Leased(h)) == 1;
      CountAppend(p.log, tail, Released(h));
      CountAppend(p.log, tail, Leased(h));
    }
  }

  /** Invocations keep the pool's bookkeeping intact: leases and releases
      stay balanced, and every release follows its handle's cleanup. */
  lemma InvocationKeepsPoolInvariants(c: Component, inst: Resolver.Instance, req: Request, p: Pool,
                                      lease: Option<Handle>, io: Transport, ex: Exchange)
    requires lease.Some? ==> lease.value !in p.leased
    requires Balanced(p) && CleanedBeforeRelease(p.log)
    ensures Balanced(Invoke(c, inst, req, p, lease, io, ex).0)
    ensures CleanedBeforeRelease(Invoke(c, inst, req, p, lease, io, ex).0.log)
  {
    var (p1, entry) := Enter(c, inst, req, p, lease, io);
    if entry.Yield? {
      LeaseKeepsBalance(p, entry.handle);
      ReleaseKeepsBalance(p1, entry.handle);
    } else if p1 != p {
      var h := lease.value;
      LeaseKeepsBalance(p, h);
      ReleaseKeepsBalance(Lease(p, h), h);
      assert p1 == CleanupAndRelease(Lease(p, h), h);
    }
  }

  /** An entry point that answers before leasing leaves the pool alone: an
      unconfigured phase answers no-op, and authentication without a
      User-Name and User-Password answers invalid. */
  lemma GuardsLeaseNothing(c: Component, inst: Resolver.Instance, req: Request, p: Pool,
                           lease: Option<Handle>, io: Transport, ex: Exchange)
    requires lease.Some? ==> lease.value !in p.leased
    ensures SectionOf(inst, c).name.None? ==> Invoke(c, inst, req, p, lease, io, ex) == (p, Noop)
    ensures (SectionOf(inst, c).name.Some? && c == ModAuthenticate && !HasCredentials(req))
              ==> Invoke(c, inst, req, p, lease, io, ex) == (p, Invalid)
    ensures (lease.None? && Invoke(c, inst, req, p, lease, io, ex).1 !in {Noop, Invalid})
              ==> Invoke(c, inst, req, p, lease, io, ex) == (p, Fail)
  {
  }

  /** The section that gates component `c`'s entry point. */
  function SectionOf(inst: Resolver.Instance, c: Component): Resolver.Section
  {
    match c
    case ModAuthorize => inst.authorize
    case ModAuthenticate => inst.authenticate
    case ModAccounting => inst.accounting
    case ModPostAuth => inst.postAuth
  }

  /** A yield names the result callback of the component that yielded, and
      only authorize registers a cancel action. */
  lemma YieldNamesOwnCallback(c: Component, inst: Resolver.Instance, req: Request, p: Pool,
                              lease: Option<Handle>, io: Transport)
    requires lease.Some? ==> lease.value !in p.leased
    ensures Enter(c, inst, req, p, lease, io).1.Yield? ==>
              Enter(c, inst, req, p, lease, io).1.resume == c
              && (Enter(c, inst, req, p, lease, io).1.cancellable <==> c == ModAuthorize)
  {
  }

  /** Accounting and post-auth never answer not-found, user-locked or
      reject, and no component ever answers handled. */
  lemma CodesEachComponentCanReturn(c: Component, inst: Resolver.Instance, req: Request, p: Pool,
                                    lease: Option<Handle>, io: Transport, ex: Exchange)
    requires lease.Some? ==> lease.value !in p.leased
    ensures Invoke(c, inst, req, p, lease, io, ex).1 != Handled
    ensures c in {ModAccounting, ModPostAuth} ==>
              Invoke(c, inst, req, p, lease, io, ex).1 !in {NotFound, Userlock, Reject}
  {
  }

  /** Every result callback takes its settings from the authenticate
      section: instances that agree on it resume identically. */
  lemma ResultsReadAuthenticateSection(c: Component, inst: Resolver.Instance, inst': Resolver.Instance,
                                       p: Pool, h: Handle, ex: Exchange)
    requires h in p.leased
    requires inst.authenticate == inst'.authenticate
    ensures Resume(c, inst, p, h, ex) == Resume(c, inst', p, h, ex)
  {
  }
}
