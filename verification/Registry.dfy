/** The in-process name registry of `ContextShared` in context.rs: bound endpoints, and connections
    that wait for a bind. */
module Registry {
  import opened Common
  import opened SocketTypes
  import opened Subscriptions
  import opened XpubHub

  type Name = Bytes

  /** A connecting socket: its type, its subscriptions, and the welcome messages it was sent. */
  datatype Sock = Sock(socketType: SocketType, subs: Subs, welcomes: seq<Bytes>)

  datatype Bound = Bound(binderType: SocketType, welcome: Option<Bytes>, peers: seq<nat>, hub: Hub)

  datatype Reg = Reg(sockets: map<nat, Sock>, bound: map<Name, Bound>, pending: map<Name, seq<nat>>)

  /** What the binding socket brings along; `inbox` is its own queue, which the endpoint will share. */
  datatype Binder = Binder(socketType: SocketType, welcome: Option<Bytes>, policy: Policy, inbox: seq<Item>)

  /** An endpoint together with the sockets it can reach. */
  datatype Site = Site(endpoint: Bound, sockets: map<nat, Sock>)

  function Fresh(b: Binder): Bound {
    Bound(b.socketType, b.welcome, [], Hub(b.policy, map[], map[], None, [], b.inbox))
  }

  predicate Fits(site: Site, id: nat) {
    id in site.sockets && Compatible(site.endpoint.binderType, site.sockets[id].socketType)
  }

  /** `add_peer` for a compatible socket: append, replay its subscriptions, greet it. */
  function Admit(site: Site, id: nat): Site
    requires Fits(site, id)
  {
    var e, s := site.endpoint, site.sockets[id];
    var isXpub := e.binderType == Xpub;
    Site(e.(peers := e.peers + [id], hub := if isXpub then ReplayAll(e.hub, id, s.subs.order) else e.hub),
         if isXpub && e.welcome.Some?
         then site.sockets[id := s.(welcomes := s.welcomes + [e.welcome.value])] else site.sockets)
  }

  /** `add_peer` for each of `ids`, stopping at the first incompatible one. */
  function AdmitAll(site: Site, ids: seq<nat>): (Site, Result<()>)
    decreases |ids|
  {
    if ids == [] then (site, Ok(()))
    else if !Fits(site, ids[0]) then (site, Err(NotSupported))
    else AdmitAll(Admit(site, ids[0]), ids[1..])
  }

  function Waiting(reg: Reg, name: Name): seq<nat> {
    if name in reg.pending then reg.pending[name] else []
  }

  /** `bind_inproc`; the last component is what the binding socket's inbox holds afterwards. */
  function Bind(reg: Reg, name: Name, b: Binder): (Reg, Result<()>, seq<Item>) {
    if name in reg.bound then (reg, Err(InvalidArgument), b.inbox)
    else
      var (site, r) := AdmitAll(Site(Fresh(b), reg.sockets), Waiting(reg, name));
      (Reg(site.sockets, if r.Ok? then reg.bound[name := site.endpoint] else reg.bound, reg.pending - {name}), r,
       site.endpoint.hub.inbox)
  }

  /** `connect_inproc`; true means that the name was bound. */
  function Connect(reg: Reg, name: Name, id: nat): (Reg, Result<bool>) {
    if name in reg.bound then
      var site := Site(reg.bound[name], reg.sockets);
      if !Fits(site, id) then (reg, Err(NotSupported))
      else
        var admitted := Admit(site, id);
        (reg.(sockets := admitted.sockets, bound := reg.bound[name := admitted.endpoint]), Ok(true))
    else (reg.(pending := reg.pending[name := Waiting(reg, name) + [id]]), Ok(false))
  }

  /** `unbind_inproc`. */
  function Unbind(reg: Reg, name: Name): (Reg, Result<()>) {
    if name in reg.bound then (reg.(bound := reg.bound - {name}), Ok(())) else (reg, Err(InvalidArgument))
  }

  /** `remove_peer`. */
  function Release(site: Site, id: nat): Bound {
    var e := site.endpoint;
    var retract := id in e.peers && e.binderType == Xpub && id in site.sockets && site.sockets[id].socketType == Xsub;
    e.(peers := Without(e.peers, id),
       hub := if retract then Detach(e.hub, id, site.sockets[id].subs.order) else e.hub)
  }

  /** `disconnect_inproc`. */
  function Disconnect(reg: Reg, name: Name, id: nat): (Reg, Result<()>) {
    var wasPeer := name in reg.bound && id in reg.bound[name].peers;
    var wasWaiting := id in Waiting(reg, name);
    var bound := if name !in reg.bound then reg.bound
                 else reg.bound[name := Release(Site(reg.bound[name], reg.sockets), id)];
    var left := Without(Waiting(reg, name), id);
    var pending := if name !in reg.pending then reg.pending
                   else if left == [] then reg.pending - {name} else reg.pending[name := left];
    (reg.(bound := bound, pending := pending), if wasPeer || wasWaiting then Ok(()) else Err(InvalidArgument))
  }

  class ContextShared {
    var sockets: map<nat, Sock>
    var inprocEndpoints: map<Name, Bound>
    var pendingInproc: map<Name, seq<nat>>

    ghost function View(): Reg
      reads this
    {
      Reg(sockets, inprocEndpoints, pendingInproc)
    }

    constructor (sockets: map<nat, Sock>)
      ensures View() == Reg(sockets, map[], map[])
    {
      this.sockets, inprocEndpoints, pendingInproc := sockets, map[], map[];
    }

    method BindInproc(name: Name, b: Binder) returns (r: Result<()>, inbox: seq<Item>)
      modifies this
      ensures (View(), r, inbox) == Bind(old(View()), name, b)
    {
      if name in inprocEndpoints {
        return Err(InvalidArgument), b.inbox;
      }
      var waiting := if name in pendingInproc then pendingInproc[name] else [];
      pendingInproc := pendingInproc - {name};
      var site := Site(Fresh(b), sockets);
      var at := 0;
      assert waiting[0..] == waiting;
      while at < |waiting|
        invariant 0 <= at <= |waiting|
        invariant pendingInproc == old(pendingInproc) - {name} && inprocEndpoints == old(inprocEndpoints)
        invariant AdmitAll(site, waiting[at..]) == AdmitAll(Site(Fresh(b), old(sockets)), waiting)
      {
        if !Fits(site, waiting[at]) {
          sockets := site.sockets;
          return Err(NotSupported), site.endpoint.hub.inbox;
        }
        site := Admit(site, waiting[at]);
        assert waiting[at..][1..] == waiting[at + 1..];
        at := at + 1;
      }
      sockets := site.sockets;
      inprocEndpoints := inprocEndpoints[name := site.endpoint];
      r, inbox := Ok(()), site.endpoint.hub.inbox;
    }

    method ConnectInproc(name: Name, id: nat) returns (r: Result<bool>)
      modifies this
      ensures (View(), r) == Connect(old(View()), name, id)
    {
      if name in inprocEndpoints {
        var site := Site(inprocEndpoints[name], sockets);
        if !Fits(site, id) {
          return Err(NotSupported);
        }
        site := Admit(site, id);
        sockets := site.sockets;
        inprocEndpoints := inprocEndpoints[name := site.endpoint];
        return Ok(true);
      }
      var waiting := if name in pendingInproc then pendingInproc[name] else [];
      pendingInproc := pendingInproc[name := waiting + [id]];
      r := Ok(false);
    }

    method UnbindInproc(name: Name) returns (r: Result<()>)
      modifies this
      ensures (View(), r) == Unbind(old(View()), name)
    {
      if name !in inprocEndpoints {
        return Err(InvalidArgument);
      }
      inprocEndpoints := inprocEndpoints - {name};
      r := Ok(());
    }

    method DisconnectInproc(name: Name, id: nat) returns (r: Result<()>)
      modifies this
      ensures (View(), r) == Disconnect(old(View()), name, id)
    {
      var removed := false;
      if name in inprocEndpoints {
        removed := id in inprocEndpoints[name].peers;
        inprocEndpoints := inprocEndpoints[name := Release(Site(inprocEndpoints[name], sockets), id)];
      }
      if name in pendingInproc {
        var waiting := pendingInproc[name];
        var left := Without(waiting, id);
        WithoutLength(waiting, id);
        removed := removed || |left| != |waiting|;
        pendingInproc := if left == [] then pendingInproc - {name} else pendingInproc[name := left];
      }
      r := if removed then Ok(()) else Err(InvalidArgument);
    }
  }

  // No name is both bound and waited for.

  datatype Step =
    | DoBind(name: Name, binder: Binder)
    | DoConnect(name: Name, id: nat)
    | DoUnbind(name: Name)
    | DoDisconnect(name: Name, id: nat)

  function Apply(reg: Reg, step: Step): Reg {
    match step
    case DoBind(name, b) => Bind(reg, name, b).0
    case DoConnect(name, id) => Connect(reg, name, id).0
    case DoUnbind(name) => Unbind(reg, name).0
    case DoDisconnect(name, id) => Disconnect(reg, name, id).0
  }

  function Run(sockets: map<nat, Sock>, steps: seq<Step>): Reg {
    if steps == [] then Reg(sockets, map[], map[])
    else Apply(Run(sockets, steps[..|steps| - 1]), steps[|steps| - 1])
  }

  ghost predicate Separated(reg: Reg) {
    && (forall name :: name in reg.pending ==> name !in reg.bound)
    && (forall name :: name in reg.pending ==> reg.pending[name] != [])
  }

  lemma ApplySeparated(reg: Reg, step: Step)
    requires Separated(reg)
    ensures Separated(Apply(reg, step))
  {
    hide AdmitAll, Admit, Release, Without;
    match step
    case DoBind(_, _) =>
    case DoConnect(_, _) =>
    case DoUnbind(_) =>
    case DoDisconnect(_, _) =>
  }

  /** In every run no name is both bound and pending, and no pending entry is empty. */
  lemma {:induction false} RunSeparated(sockets: map<nat, Sock>, steps: seq<Step>)
    ensures Separated(Run(sockets, steps))
  {
    if steps != [] {
      RunSeparated(sockets, steps[..|steps| - 1]);
      ApplySeparated(Run(sockets, steps[..|steps| - 1]), steps[|steps| - 1]);
    }
  }

  // Binding early or late.

  /** `connect_inproc` for each of `ids`; failed connects change nothing. */
  function ConnectAll(reg: Reg, name: Name, ids: seq<nat>): Reg
    decreases |ids|
  {
    if ids == [] then reg else ConnectAll(Connect(reg, name, ids[0]).0, name, ids[1..])
  }

  /** The compatible ones among `ids` are admitted. */
  function AdmitFitting(site: Site, ids: seq<nat>): Site
    decreases |ids|
  {
    if ids == [] then site
    else AdmitFitting(if Fits(site, ids[0]) then Admit(site, ids[0]) else site, ids[1..])
  }

  ghost predicate AllFit(site: Site, ids: seq<nat>) {
    forall i :: 0 <= i < |ids| ==> Fits(site, ids[i])
  }

  lemma AdmitKeepsFits(site: Site, id: nat, k: nat)
    requires Fits(site, id)
    ensures Fits(Admit(site, id), k) <==> Fits(site, k)
  {
  }

  lemma {:induction false} AdmitAllFitting(site: Site, ids: seq<nat>)
    ensures AdmitAll(site, ids).1.Ok? <==> AllFit(site, ids)
    ensures AllFit(site, ids) ==> AdmitAll(site, ids).0 == AdmitFitting(site, ids)
    decreases |ids|
  {
    hide Admit, Fits;
    if ids != [] {
      if Fits(site, ids[0]) {
        AdmitAllFitting(Admit(site, ids[0]), ids[1..]);
        forall k ensures Fits(Admit(site, ids[0]), k) <==> Fits(site, k) {
          AdmitKeepsFits(site, ids[0], k);
        }
        assert AllFit(site, ids) <==> AllFit(Admit(site, ids[0]), ids[1..]) by {
          assert ids == [ids[0]] + ids[1..];
        }
      }
    }
  }

  lemma {:induction false} AdmitFittingAppend(site: Site, a: seq<nat>, b: seq<nat>)
    ensures AdmitFitting(site, a + b) == AdmitFitting(AdmitFitting(site, a), b)
    decreases |a|
  {
    hide Admit, Fits;
    if a == [] {
      ConcatEmpty(b);
    } else {
      AdmitFittingAppend(if Fits(site, a[0]) then Admit(site, a[0]) else site, a[1..], b);
      assert (a + b)[1..] == a[1..] + b;
    }
  }

  /** Connects to an unbound name queue up in order. */
  lemma {:induction false} ConnectAllWaits(reg: Reg, name: Name, ids: seq<nat>)
    requires name !in reg.bound
    ensures ConnectAll(reg, name, ids) ==
            if ids == [] then reg else reg.(pending := reg.pending[name := Waiting(reg, name) + ids])
    decreases |ids|
  {
    if ids != [] {
      var next := Connect(reg, name, ids[0]).0;
      ConnectAllWaits(next, name, ids[1..]);
      assert Waiting(reg, name) + ids == Waiting(reg, name) + [ids[0]] + ids[1..];
      ConcatEmpty(Waiting(next, name));
    }
  }

  /** Connects to a bound name are admitted one after the other. */
  lemma {:induction false} ConnectAllAdmits(reg: Reg, name: Name, ids: seq<nat>)
    requires name in reg.bound
    ensures var site := AdmitFitting(Site(reg.bound[name], reg.sockets), ids);
            ConnectAll(reg, name, ids) == reg.(sockets := site.sockets, bound := reg.bound[name := site.endpoint])
    decreases |ids|
  {
    hide Admit, Fits;
    if ids != [] {
      ConnectAllAdmits(Connect(reg, name, ids[0]).0, name, ids[1..]);
    }
  }

  /** The registry after `ids` connect in order, with the bind after the first `k` of them. */
  function BindAfter(reg: Reg, name: Name, b: Binder, ids: seq<nat>, k: nat): Reg
    requires k <= |ids|
  {
    ConnectAll(Bind(ConnectAll(reg, name, ids[..k]), name, b).0, name, ids[k..])
  }

  lemma BindAfterMeaning(reg: Reg, name: Name, b: Binder, ids: seq<nat>, k: nat)
    requires name !in reg.bound && name !in reg.pending && k <= |ids|
    requires AllFit(Site(Fresh(b), reg.sockets), ids[..k])
    ensures var site := AdmitFitting(Site(Fresh(b), reg.sockets), ids);
            BindAfter(reg, name, b, ids, k) ==
            Reg(site.sockets, reg.bound[name := site.endpoint], reg.pending)
  {
    hide Admit, Fits, AllFit, ConnectAll, AdmitAll, AdmitFitting;
    var start := Site(Fresh(b), reg.sockets);
    var early, late := ids[..k], ids[k..];
    var waiting := ConnectAll(reg, name, early);
    ConnectAllWaits(reg, name, early);
    ConcatEmpty(early);
    assert Waiting(waiting, name) == early;
    assert waiting.pending - {name} == reg.pending;
    AdmitAllFitting(start, early);
    var bound := Bind(waiting, name, b).0;
    ConnectAllAdmits(bound, name, late);
    AdmitFittingAppend(start, early, late);
    SplitConcat(ids, k);
  }

  lemma NothingFits(site: Site)
    ensures AllFit(site, [])
  {
  }

  /** How many of `ids` are compatible before the first that is not. */
  function FittingPrefix(site: Site, ids: seq<nat>): (n: nat)
    ensures n <= |ids|
    decreases |ids|
  {
    if ids == [] || !Fits(site, ids[0]) then 0 else 1 + FittingPrefix(site, ids[1..])
  }

  lemma {:induction false} SamePrefix(site: Site, site': Site, ids: seq<nat>)
    requires forall k :: Fits(site', k) <==> Fits(site, k)
    ensures FittingPrefix(site', ids) == FittingPrefix(site, ids)
    decreases |ids|
  {
    hide Fits;
    if ids != [] && Fits(site, ids[0]) { SamePrefix(site, site', ids[1..]); }
  }

  /** The admissions of a failing bind stop at the first incompatible socket. */
  lemma {:induction false} AdmitAllStops(site: Site, ids: seq<nat>)
    ensures AdmitAll(site, ids).0 == AdmitFitting(site, ids[..FittingPrefix(site, ids)])
    decreases |ids|
  {
    hide Admit, Fits;
    if ids != [] && Fits(site, ids[0]) {
      var next := Admit(site, ids[0]);
      AdmitAllStops(next, ids[1..]);
      forall k ensures Fits(next, k) <==> Fits(site, k) {
        AdmitKeepsFits(site, ids[0], k);
      }
      SamePrefix(site, next, ids[1..]);
      var n := FittingPrefix(site, ids);
      assert ids[..n][1..] == ids[1..][..n - 1];
    }
  }

  /** A late bind that meets an incompatible waiting socket leaves the name unbound and forgets every
      waiting socket: only later connects are pending. The sockets before the incompatible one have been
      greeted, and their notifications stay in the binding socket's own inbox. */
  lemma FailedBindStaysUnbound(reg: Reg, name: Name, b: Binder, ids: seq<nat>, k: nat)
    requires name !in reg.bound && name !in reg.pending && k <= |ids|
    requires !AllFit(Site(Fresh(b), reg.sockets), ids[..k])
    ensures var start := Site(Fresh(b), reg.sockets);
            var greeted := AdmitFitting(start, ids[..k][..FittingPrefix(start, ids[..k])]);
            && BindAfter(reg, name, b, ids, k) ==
               Reg(greeted.sockets, reg.bound, if k == |ids| then reg.pending else reg.pending[name := ids[k..]])
            && Bind(ConnectAll(reg, name, ids[..k]), name, b).1 == Err(NotSupported)
            && Bind(ConnectAll(reg, name, ids[..k]), name, b).2 == greeted.endpoint.hub.inbox
  {
    hide Admit, Fits, AllFit, ConnectAll, AdmitAll, AdmitFitting, FittingPrefix;
    var start, early := Site(Fresh(b), reg.sockets), ids[..k];
    var waiting := ConnectAll(reg, name, early);
    ConnectAllWaits(reg, name, early);
    NothingFits(start);
    ConcatEmpty(early);
    assert Waiting(waiting, name) == early;
    assert waiting.pending - {name} == reg.pending;
    AdmitAllFitting(start, early);
    AdmitAllStops(start, early);
    AdmitAllErrs(start, early);
    ConnectAllWaits(Bind(waiting, name, b).0, name, ids[k..]);
    ConcatEmpty(ids[k..]);
  }

  lemma {:induction false} AdmitAllErrs(site: Site, ids: seq<nat>)
    ensures AdmitAll(site, ids).1.Err? ==> AdmitAll(site, ids).1 == Err(NotSupported)
    decreases |ids|
  {
    hide Admit, Fits;
    if ids != [] && Fits(site, ids[0]) { AdmitAllErrs(Admit(site, ids[0]), ids[1..]); }
  }

  /** Binding after the first `k` connects gives the same peer list, topic table, notifications and
      welcome messages as binding first, exactly when all `k` waiting sockets are compatible with
      the binder: one incompatible socket makes the late bind fail and loses every waiting one. */
  lemma BindOrderIrrelevantIff(reg: Reg, name: Name, b: Binder, ids: seq<nat>, k: nat)
    requires name !in reg.bound && name !in reg.pending && k <= |ids|
    ensures BindAfter(reg, name, b, ids, k) == BindAfter(reg, name, b, ids, 0) <==>
            forall i :: 0 <= i < k ==> Fits(Site(Fresh(b), reg.sockets), ids[i])
  {
    hide Admit, Fits, BindAfter, AdmitFitting;
    var start := Site(Fresh(b), reg.sockets);
    assert ids[..0] == [];
    BindAfterMeaning(reg, name, b, ids, 0);
    assert AllFit(start, ids[..k]) <==> forall i :: 0 <= i < k ==> Fits(start, ids[i]) by {
      assert forall i :: 0 <= i < k ==> ids[..k][i] == ids[i];
    }
    if AllFit(start, ids[..k]) {
      BindAfterMeaning(reg, name, b, ids, k);
    } else {
      FailedBindStaysUnbound(reg, name, b, ids, k);
    }
  }
}
