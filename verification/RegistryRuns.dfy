/** What the registry's calls leave in the endpoints and sockets: who is recorded for which topic, what the
    binding socket is told, and who is greeted. */
module RegistryRuns {
  import opened Common
  import opened SocketTypes
  import Subscriptions
  import opened XpubHub
  import opened Registry

  ghost predicate SubsWellFormed(sockets: map<nat, Sock>) {
    forall id :: id in sockets ==> Subscriptions.WellFormed(sockets[id].subs)
  }

  predicate Stores(sockets: map<nat, Sock>, id: nat, topic: Bytes) {
    id in sockets && topic in sockets[id].subs.refs
  }

  /** The peers are XSUB sockets, and the table lists for each topic exactly the peers that store it. */
  ghost predicate Recorded(site: Site) {
    var e := site.endpoint;
    e.binderType == Xpub ==>
      && (forall id :: id in e.peers ==> id in site.sockets && site.sockets[id].socketType == Xsub)
      && forall topic, id ::
           id in PeersOf(e.hub.topics, topic) <==> id in e.peers && Stores(site.sockets, id, topic)
  }

  /** The same sockets with the same types and subscriptions; greetings may differ. */
  ghost predicate SameSockets(sockets: map<nat, Sock>, sockets': map<nat, Sock>) {
    && sockets'.Keys == sockets.Keys
    && forall id :: id in sockets ==>
                      sockets'[id].subs == sockets[id].subs && sockets'[id].socketType == sockets[id].socketType
  }

  /** A socket of type XSUB is the only one that fits an XPUB. */
  lemma XpubFitsXsub(t: SocketType)
    ensures Compatible(Xpub, t) <==> t == Xsub
  {
  }

  lemma FreshRecorded(b: Binder, sockets: map<nat, Sock>)
    ensures Recorded(Site(Fresh(b), sockets))
  {
  }

  lemma OtherSockets(e: Bound, sockets: map<nat, Sock>, sockets': map<nat, Sock>)
    requires Recorded(Site(e, sockets)) && SameSockets(sockets, sockets')
    ensures Recorded(Site(e, sockets'))
  {
    forall topic, id ensures Stores(sockets', id, topic) <==> Stores(sockets, id, topic) {
    }
  }

  lemma AdmitRecorded(site: Site, id: nat)
    requires Fits(site, id) && Recorded(site) && SubsWellFormed(site.sockets)
    ensures Recorded(Admit(site, id)) && SameSockets(site.sockets, Admit(site, id).sockets)
  {
    var e, after := site.endpoint, Admit(site, id);
    if e.binderType == Xpub {
      var order := site.sockets[id].subs.order;
      forall topic, k
        ensures k in PeersOf(after.endpoint.hub.topics, topic) <==>
                k in after.endpoint.peers && Stores(after.sockets, k, topic)
      {
        PeersAfterReplay(e.hub, id, order, topic);
        assert k in PeersOf(e.hub.topics, topic) <==> k in e.peers && Stores(site.sockets, k, topic);
        assert topic in order <==> topic in site.sockets[id].subs.refs;
      }
    }
  }

  lemma {:induction false} AdmitAllRecorded(site: Site, ids: seq<nat>)
    requires Recorded(site) && SubsWellFormed(site.sockets)
    ensures Recorded(AdmitAll(site, ids).0) && SameSockets(site.sockets, AdmitAll(site, ids).0.sockets)
    decreases |ids|
  {
    hide Recorded, Admit;
    if ids != [] && Fits(site, ids[0]) {
      AdmitRecorded(site, ids[0]);
      AdmitAllRecorded(Admit(site, ids[0]), ids[1..]);
    }
  }

  lemma ReleaseRecorded(site: Site, id: nat)
    requires Recorded(site) && SubsWellFormed(site.sockets)
    ensures Recorded(Site(Release(site, id), site.sockets))
  {
    hide WithoutPeer, ForgetManual;
    var e, after := site.endpoint, Release(site, id);
    if e.binderType == Xpub {
      forall topic, k
        ensures k in PeersOf(after.hub.topics, topic) <==> k in after.peers && Stores(site.sockets, k, topic)
      {
        assert k in PeersOf(e.hub.topics, topic) <==> k in e.peers && Stores(site.sockets, k, topic);
        if id in e.peers {
          PeersAfterRetract(e.hub, id, site.sockets[id].subs.order, topic);
        }
      }
    }
  }

  ghost predicate AllRecorded(reg: Reg) {
    SubsWellFormed(reg.sockets) && forall name :: name in reg.bound ==> Recorded(Site(reg.bound[name], reg.sockets))
  }

  lemma ApplyRecorded(reg: Reg, step: Step)
    requires AllRecorded(reg)
    ensures AllRecorded(Apply(reg, step)) && SameSockets(reg.sockets, Apply(reg, step).sockets)
  {
    hide Recorded, Admit, AdmitAll, Release, Without, Subscriptions.WellFormed;
    match step
    case DoBind(name, b) =>
      FreshRecorded(b, reg.sockets);
      AdmitAllRecorded(Site(Fresh(b), reg.sockets), Waiting(reg, name));
      OthersRecorded(reg, Apply(reg, step).sockets);
    case DoConnect(name, id) =>
      if name in reg.bound && Fits(Site(reg.bound[name], reg.sockets), id) {
        AdmitRecorded(Site(reg.bound[name], reg.sockets), id);
        OthersRecorded(reg, Apply(reg, step).sockets);
      }
    case DoUnbind(_) =>
    case DoDisconnect(name, id) =>
      if name in reg.bound { ReleaseRecorded(Site(reg.bound[name], reg.sockets), id); }
  }

  lemma OthersRecorded(reg: Reg, sockets: map<nat, Sock>)
    requires AllRecorded(reg)
    ensures SameSockets(reg.sockets, sockets) ==>
              forall name :: name in reg.bound ==> Recorded(Site(reg.bound[name], sockets))
  {
    hide Recorded;
    if SameSockets(reg.sockets, sockets) {
      forall name | name in reg.bound ensures Recorded(Site(reg.bound[name], sockets)) {
        OtherSockets(reg.bound[name], reg.sockets, sockets);
      }
    }
  }

  /** In every run of binds, connects, unbinds and disconnects, early or late: a bound XPUB's table lists for
      each topic exactly the sockets that are its peers and store the topic. */
  lemma {:induction false} RunRecorded(sockets: map<nat, Sock>, steps: seq<Step>)
    requires SubsWellFormed(sockets)
    ensures AllRecorded(Run(sockets, steps)) && SameSockets(sockets, Run(sockets, steps).sockets)
  {
    if steps != [] {
      RunRecorded(sockets, steps[..|steps| - 1]);
      ApplyRecorded(Run(sockets, steps[..|steps| - 1]), steps[|steps| - 1]);
    }
  }

  // What the binding socket is told.

  /** Some peer other than `id` stores the topic. */
  predicate OtherStores(sockets: map<nat, Sock>, peers: seq<nat>, id: nat, topic: Bytes) {
    exists k :: k in peers && k != id && Stores(sockets, k, topic)
  }

  /** One announcement per prefix of a joining socket that no other peer stores, in stored order; in verbose
      and manual mode one per prefix. */
  function JoinNews(sockets: map<nat, Sock>, peers: seq<nat>, policy: Policy, id: nat, order: seq<Bytes>): seq<Item> {
    if order == [] then []
    else
      var last := order[|order| - 1];
      JoinNews(sockets, peers, policy, id, order[..|order| - 1]) +
      If(!OtherStores(sockets, peers, id, last) || policy.verboseSubscribe || policy.manual, Change(true, last))
  }

  function LeaveNews(sockets: map<nat, Sock>, peers: seq<nat>, policy: Policy, id: nat, order: seq<Bytes>): seq<Item> {
    if order == [] then []
    else
      var last := order[|order| - 1];
      LeaveNews(sockets, peers, policy, id, order[..|order| - 1]) +
      If(!OtherStores(sockets, peers, id, last) || policy.verboseUnsubscribe || policy.manual, Change(false, last))
  }

  /** The announcements of `ids` joining one after the other. */
  function AllNews(sockets: map<nat, Sock>, policy: Policy, peers: seq<nat>, ids: seq<nat>): seq<Item>
    requires forall i :: 0 <= i < |ids| ==> ids[i] in sockets
    decreases |ids|
  {
    if ids == [] then []
    else JoinNews(sockets, peers, policy, ids[0], sockets[ids[0]].subs.order) +
         AllNews(sockets, policy, peers + [ids[0]], ids[1..])
  }

  lemma AloneIff(site: Site, id: nat, topic: Bytes)
    requires Recorded(site) && site.endpoint.binderType == Xpub
    ensures PeersOf(site.endpoint.hub.topics, topic) <= {id} <==>
            !OtherStores(site.sockets, site.endpoint.peers, id, topic)
  {
    var e := site.endpoint;
    if k :| k in e.peers && k != id && Stores(site.sockets, k, topic) {
      assert k in PeersOf(e.hub.topics, topic);
    }
    if k :| k in PeersOf(e.hub.topics, topic) && k != id {
      assert k in e.peers && Stores(site.sockets, k, topic);
    }
  }

  lemma {:induction false} JoiningIsNews(site: Site, id: nat, order: seq<Bytes>)
    requires Recorded(site) && site.endpoint.binderType == Xpub
    ensures var e := site.endpoint;
            Joining(e.hub, id, order) == JoinNews(site.sockets, e.peers, e.hub.policy, id, order)
    ensures var e := site.endpoint;
            Leaving(e.hub, id, order) == LeaveNews(site.sockets, e.peers, e.hub.policy, id, order)
  {
    hide Recorded, OtherStores, If, PeersOf;
    if order != [] {
      JoiningIsNews(site, id, order[..|order| - 1]);
      AloneIff(site, id, order[|order| - 1]);
    }
  }

  /** What one admission does: the socket becomes the last of the peers, an XPUB is told what is new and will
      answer this socket if anything was, and the socket alone is greeted, once. */
  lemma AdmitMeaning(site: Site, id: nat)
    requires Fits(site, id) && Recorded(site) && SubsWellFormed(site.sockets)
    ensures var e, e' := site.endpoint, Admit(site, id).endpoint;
            && e'.binderType == e.binderType && e'.welcome == e.welcome && e'.hub.policy == e.hub.policy
            && e'.peers == e.peers + [id]
            && var news := if e.binderType == Xpub
                           then JoinNews(site.sockets, e.peers, e.hub.policy, id, site.sockets[id].subs.order)
                           else [];
            && e'.hub.inbox == e.hub.inbox + news
            && e'.hub.lastPeer == (if news == [] then e.hub.lastPeer else Some(id))
            && e'.hub.manualTopics == e.hub.manualTopics
    ensures Admit(site, id).sockets == Greeted(site, [id])
  {
    var e, order := site.endpoint, site.sockets[id].subs.order;
    ConcatEmpty(e.hub.inbox);
    if e.binderType == Xpub {
      ReplayInbox(e.hub, id, order);
      ReplayLastPeer(e.hub, id, order);
      JoiningIsNews(site, id, order);
      PeersAfterReplay(e.hub, id, order, []);
    }
    hide Recorded, JoinNews, ReplayAll;
    GreetOne(site, id);
  }

  /** Every socket gets the welcome message of an XPUB that has one, once per time it is among `ids`. */
  function Greeted(site: Site, ids: seq<nat>): map<nat, Sock> {
    map k | k in site.sockets ::
      site.sockets[k].(welcomes := site.sockets[k].welcomes + Welcomes(site.endpoint, Times(ids, k)))
  }

  function Welcomes(e: Bound, n: nat): seq<Bytes> {
    if e.binderType == Xpub && e.welcome.Some? then seq(n, _ => e.welcome.value) else []
  }

  function Times(ids: seq<nat>, k: nat): nat {
    multiset(ids)[k]
  }

  lemma GreetOne(site: Site, id: nat)
    requires id in site.sockets
    ensures var e, s := site.endpoint, site.sockets[id];
            Greeted(site, [id]) ==
            if e.binderType == Xpub && e.welcome.Some?
            then site.sockets[id := s.(welcomes := s.welcomes + [e.welcome.value])] else site.sockets
  {
    var e := site.endpoint;
    if e.welcome.Some? { assert seq(1, _ => e.welcome.value) == [e.welcome.value]; }
    forall k | k in site.sockets && k != id ensures Greeted(site, [id])[k] == site.sockets[k] {
      assert Welcomes(e, Times([id], k)) == [];
      ConcatEmpty(site.sockets[k].welcomes);
    }
    ConcatEmpty(site.sockets[id].welcomes);
  }

  lemma {:induction false} NewsSame(sockets: map<nat, Sock>, sockets': map<nat, Sock>, peers: seq<nat>, policy: Policy,
                                    id: nat, order: seq<Bytes>)
    requires SameSockets(sockets, sockets')
    ensures JoinNews(sockets', peers, policy, id, order) == JoinNews(sockets, peers, policy, id, order)
  {
    if order != [] {
      NewsSame(sockets, sockets', peers, policy, id, order[..|order| - 1]);
      assert forall k, t :: Stores(sockets', k, t) <==> Stores(sockets, k, t);
    }
  }

  lemma {:induction false} AllNewsSame(sockets: map<nat, Sock>, sockets': map<nat, Sock>, policy: Policy,
                                       peers: seq<nat>, ids: seq<nat>)
    requires SameSockets(sockets, sockets') && forall i :: 0 <= i < |ids| ==> ids[i] in sockets
    ensures AllNews(sockets', policy, peers, ids) == AllNews(sockets, policy, peers, ids)
    decreases |ids|
  {
    hide JoinNews;
    if ids != [] {
      NewsSame(sockets, sockets', peers, policy, ids[0], sockets[ids[0]].subs.order);
      AllNewsSame(sockets, sockets', policy, peers + [ids[0]], ids[1..]);
    }
  }

  lemma WelcomesAdd(e: Bound, e': Bound, a: nat, b: nat)
    requires e'.binderType == e.binderType && e'.welcome == e.welcome
    ensures Welcomes(e, a) + Welcomes(e', b) == Welcomes(e, a + b)
  {
  }

  lemma TimesSplit(ids: seq<nat>, k: nat)
    requires ids != []
    ensures Times(ids, k) == Times([ids[0]], k) + Times(ids[1..], k)
  {
    assert ids == [ids[0]] + ids[1..];
  }

  lemma GreetMore(site: Site, ids: seq<nat>, e: Bound)
    requires ids != [] && e.binderType == site.endpoint.binderType && e.welcome == site.endpoint.welcome
    ensures Greeted(Site(e, Greeted(site, [ids[0]])), ids[1..]) == Greeted(site, ids)
  {
    hide Times, Welcomes;
    var once := Greeted(site, [ids[0]]);
    forall k | k in site.sockets
      ensures once[k].welcomes + Welcomes(e, Times(ids[1..], k)) ==
              site.sockets[k].welcomes + Welcomes(site.endpoint, Times(ids, k))
    {
      TimesSplit(ids, k);
      var a, b := Times([ids[0]], k), Times(ids[1..], k);
      WelcomesAdd(site.endpoint, e, a, b);
      ConcatAssociative(site.sockets[k].welcomes, Welcomes(site.endpoint, a), Welcomes(e, b));
    }
  }

  /** The admissions `ids` have made the endpoint `e'` and the sockets `sockets'` out of `site`. */
  ghost predicate Admitted(site: Site, ids: seq<nat>, e': Bound, sockets': map<nat, Sock>)
    requires forall i :: 0 <= i < |ids| ==> ids[i] in site.sockets
  {
    var e := site.endpoint;
    && e'.binderType == e.binderType && e'.welcome == e.welcome && e'.hub.policy == e.hub.policy
    && e'.peers == e.peers + ids
    && e'.hub.inbox == e.hub.inbox +
                       (if e.binderType == Xpub then AllNews(site.sockets, e.hub.policy, e.peers, ids) else [])
    && sockets' == Greeted(site, ids)
  }

  lemma NoneAdmitted(site: Site)
    ensures Admitted(site, [], site.endpoint, site.sockets)
  {
    ConcatEmpty(site.endpoint.peers);
    ConcatEmpty(site.endpoint.hub.inbox);
    forall k | k in site.sockets ensures Greeted(site, [])[k] == site.sockets[k] {
      assert Welcomes(site.endpoint, 0) == [];
      ConcatEmpty(site.sockets[k].welcomes);
    }
  }

  /** One admission and then others. */
  lemma AdmittedMore(site: Site, ids: seq<nat>, e': Bound, sockets': map<nat, Sock>)
    requires ids != [] && Fits(site, ids[0]) && Recorded(site) && SubsWellFormed(site.sockets)
    requires forall i :: 0 <= i < |ids| ==> ids[i] in site.sockets
    requires SameSockets(site.sockets, Admit(site, ids[0]).sockets)
    requires Admitted(Admit(site, ids[0]), ids[1..], e', sockets')
    ensures Admitted(site, ids, e', sockets')
  {
    hide Recorded, Admit, JoinNews, Greeted, Subscriptions.WellFormed;
    var e, next, id := site.endpoint, Admit(site, ids[0]), ids[0];
    AdmitMeaning(site, id);
    AllNewsSame(site.sockets, next.sockets, e.hub.policy, e.peers + [id], ids[1..]);
    GreetMore(site, ids, next.endpoint);
    ConcatAssociative(e.peers, [id], ids[1..]);
    assert [id] + ids[1..] == ids;
    if e.binderType == Xpub {
      ConcatAssociative(e.hub.inbox, JoinNews(site.sockets, e.peers, e.hub.policy, id, site.sockets[id].subs.order),
                        AllNews(site.sockets, e.hub.policy, e.peers + [id], ids[1..]));
    } else {
      ConcatEmpty(e.hub.inbox);
    }
  }

  /** A bind admits the waiting sockets up to the first that does not fit. */
  lemma {:induction false} AdmitAllMeaning(site: Site, ids: seq<nat>)
    requires Recorded(site) && SubsWellFormed(site.sockets)
    ensures var taken := ids[..FittingPrefix(site, ids)];
            && (forall i :: 0 <= i < |taken| ==> taken[i] in site.sockets)
            && Admitted(site, taken, AdmitAll(site, ids).0.endpoint, AdmitAll(site, ids).0.sockets)
    decreases |ids|
  {
    hide Recorded, Admit, Admitted, Subscriptions.WellFormed;
    NoneAdmitted(site);
    if ids != [] && Fits(site, ids[0]) {
      var next := Admit(site, ids[0]);
      AdmitRecorded(site, ids[0]);
      AdmitMeaning(site, ids[0]);
      AdmitAllMeaning(next, ids[1..]);
      forall k ensures Fits(next, k) <==> Fits(site, k) {
        AdmitKeepsFits(site, ids[0], k);
      }
      SamePrefix(site, next, ids[1..]);
      var taken := ids[..FittingPrefix(site, ids)];
      assert taken[1..] == ids[1..][..FittingPrefix(next, ids[1..])];
      assert forall i :: 0 < i < |taken| ==> taken[i] == taken[1..][i - 1];
      AdmittedMore(site, taken, AdmitAll(site, ids).0.endpoint, AdmitAll(site, ids).0.sockets);
    }
  }

  // The calls in any run.

  /** The outcome of binding a free name: the waiting sockets up to the first misfit are admitted to a fresh
      endpoint, and the name is bound to it exactly when there is no misfit. */
  ghost predicate BindDoes(reg: Reg, name: Name, b: Binder, reg': Reg, r: Result<()>, inbox: seq<Item>) {
    var start, waiting := Site(Fresh(b), reg.sockets), Waiting(reg, name);
    var taken := waiting[..FittingPrefix(start, waiting)];
    && (forall i :: 0 <= i < |taken| ==> taken[i] in reg.sockets)
    && r == (if taken == waiting then Ok(()) else Err(NotSupported))
    && inbox == b.inbox + (if b.socketType == Xpub then AllNews(reg.sockets, b.policy, [], taken) else [])
    && reg'.sockets == Greeted(start, taken) && reg'.pending == reg.pending - {name}
    && (r.Err? ==> reg'.bound == reg.bound)
    && (r.Ok? ==> && reg'.bound.Keys == reg.bound.Keys + {name} && reg'.bound == reg.bound[name := reg'.bound[name]]
                  && Admitted(start, waiting, reg'.bound[name], reg'.sockets)
                  && reg'.bound[name].hub.inbox == inbox)
  }

  lemma BindOutcome(reg: Reg, name: Name, b: Binder)
    requires AllRecorded(reg) && name !in reg.bound
    ensures var (reg', r, inbox) := Bind(reg, name, b); BindDoes(reg, name, b, reg', r, inbox)
  {
    hide AdmitAll, Recorded, Greeted, AllNews, SubsWellFormed, FittingPrefix, AllFit;
    var start, waiting := Site(Fresh(b), reg.sockets), Waiting(reg, name);
    FreshRecorded(b, reg.sockets);
    AdmitAllMeaning(start, waiting);
    AdmitAllErrs(start, waiting);
    AdmitAllFitting(start, waiting);
    PrefixIsAll(start, waiting);
    var (reg', r, inbox) := Bind(reg, name, b);
    assert r.Ok? ==> r.value == ();
  }

  /** Binding a free name, in any run: the waiting sockets up to the first misfit become the peers in order,
      the binding socket's own items are followed by one announcement per newly stored prefix, and each of
      them is greeted. */
  lemma BindMeaning(sockets: map<nat, Sock>, steps: seq<Step>, name: Name, b: Binder)
    requires SubsWellFormed(sockets) && name !in Run(sockets, steps).bound
    ensures var (reg', r, inbox) := Bind(Run(sockets, steps), name, b);
            BindDoes(Run(sockets, steps), name, b, reg', r, inbox)
  {
    hide AdmitAll, BindDoes;
    RunRecorded(sockets, steps);
    BindOutcome(Run(sockets, steps), name, b);
  }

  lemma {:induction false} PrefixIsAll(site: Site, ids: seq<nat>)
    ensures ids[..FittingPrefix(site, ids)] == ids <==> AllFit(site, ids)
    decreases |ids|
  {
    hide Fits;
    if ids != [] {
      PrefixIsAll(site, ids[1..]);
      assert ids == [ids[0]] + ids[1..];
      var n := FittingPrefix(site, ids);
      if ids[..n] == ids { assert n == |ids|; }
      assert FittingPrefix(site, ids[1..]) == |ids| - 1 <==> AllFit(site, ids[1..]);
    }
  }

  /** Connecting to a bound name, in any run. */
  lemma ConnectMeaning(sockets: map<nat, Sock>, steps: seq<Step>, name: Name, id: nat)
    requires SubsWellFormed(sockets) && name in Run(sockets, steps).bound
    ensures var reg := Run(sockets, steps);
            var site, (reg', r) := Site(reg.bound[name], reg.sockets), Connect(reg, name, id);
            && r == (if Fits(site, id) then Ok(true) else Err(NotSupported))
            && (r.Err? ==> reg' == reg)
            && (r.Ok? ==> && reg'.bound.Keys == reg.bound.Keys
                          && Admitted(site, [id], reg'.bound[name], reg'.sockets)
                          && (forall other :: other in reg.bound && other != name ==>
                                                reg'.bound[other] == reg.bound[other]))
  {
    var reg := Run(sockets, steps);
    RunRecorded(sockets, steps);
    hide Run, Recorded, Subscriptions.WellFormed, Admit, Admitted;
    var site := Site(reg.bound[name], reg.sockets);
    if Fits(site, id) {
      AdmitAllMeaning(site, [id]);
      OneAdmitted(site, id);
    }
  }

  lemma OneAdmitted(site: Site, id: nat)
    requires Fits(site, id)
    ensures AdmitAll(site, [id]).0 == Admit(site, id) && [id][..FittingPrefix(site, [id])] == [id]
  {
    hide Admit;
    assert [id][1..] == [];
    assert FittingPrefix(site, []) == 0;
  }

  /** Disconnecting from a bound XPUB, in any run: the socket is no peer any more, and the XPUB is told of
      every prefix that no other peer stores, in stored order (in the verbose modes of every prefix). */
  lemma DisconnectMeaning(sockets: map<nat, Sock>, steps: seq<Step>, name: Name, id: nat)
    requires SubsWellFormed(sockets) && name in Run(sockets, steps).bound
    ensures var reg := Run(sockets, steps);
            var e, (reg', r) := reg.bound[name], Disconnect(reg, name, id);
            && r == (if id in e.peers then Ok(()) else Err(InvalidArgument))
            && reg'.sockets == reg.sockets && reg'.bound.Keys == reg.bound.Keys
            && reg'.bound[name].peers == Without(e.peers, id)
            && (id in e.peers && e.binderType == Xpub ==> id in reg.sockets)
            && reg'.bound[name].hub.inbox ==
               e.hub.inbox + (if id in e.peers && e.binderType == Xpub
                              then LeaveNews(reg.sockets, e.peers, e.hub.policy, id, reg.sockets[id].subs.order)
                              else [])
  {
    var reg := Run(sockets, steps);
    RunRecorded(sockets, steps);
    RunSeparated(sockets, steps);
    hide Run, Without, RetractAll, ForgetManual, LeaveNews, Leaving, PeersOf;
    var e := reg.bound[name];
    var site := Site(e, reg.sockets);
    ConcatEmpty(e.hub.inbox);
    if id in e.peers && e.binderType == Xpub {
      var order := reg.sockets[id].subs.order;
      forall i | 0 <= i < |order| ensures id in PeersOf(e.hub.topics, order[i]) {
        assert Stores(reg.sockets, id, order[i]);
      }
      RetractInbox(e.hub, id, order);
      JoiningIsNews(site, id, order);
    }
  }

  /** Connecting to a name nobody has bound, and disconnecting or unbinding again. */
  lemma WaitingMeaning(reg: Reg, name: Name, id: nat)
    requires name !in reg.bound
    ensures var (reg', r) := Connect(reg, name, id);
            && r == Ok(false) && Waiting(reg', name) == Waiting(reg, name) + [id]
            && reg' == reg.(pending := reg'.pending)
            && forall other :: other != name ==> Waiting(reg', other) == Waiting(reg, other)
    ensures var (reg', r) := Disconnect(reg, name, id);
            && r == (if id in Waiting(reg, name) then Ok(()) else Err(InvalidArgument))
            && Waiting(reg', name) == Without(Waiting(reg, name), id) && reg' == reg.(pending := reg'.pending)
            && forall other :: other != name ==> Waiting(reg', other) == Waiting(reg, other)
    ensures Unbind(reg, name) == (reg, Err(InvalidArgument))
  {
    hide Without;
    assert Without([], id) == [] by { WithoutLength([], id); }
  }

  /** Unbinding frees the name and leaves everything else alone. */
  lemma UnbindMeaning(reg: Reg, name: Name)
    requires name in reg.bound
    ensures var (reg', r) := Unbind(reg, name);
            && r == Ok(()) && name !in reg'.bound && reg' == reg.(bound := reg'.bound)
            && forall other :: other in reg.bound && other != name ==>
                                 other in reg'.bound && reg'.bound[other] == reg.bound[other]
  {
  }
}
