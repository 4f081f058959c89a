/** The two-way subscription index of the websocket server
  * (backend/src/websocket/subscriptionManager.js). A client stands for one socket. */
module Subscriptions {
  type Client = nat
  type JobId = string

  datatype Index = Index(clients: set<Client>, byJob: map<JobId, set<Client>>, byClient: map<Client, set<JobId>>)

  const EMPTY := Index({}, map[], map[])

  /** `SubscribeAnswered` is the continuation of a subscription once the job has been looked up. */
  datatype Event =
    | Add(client: Client)
    | Remove(client: Client)
    | SubscribeAnswered(client: Client, job: JobId, found: bool)
    | Unsubscribe(client: Client, job: JobId)

  function SubscribersOf(x: Index, job: JobId): set<Client> {
    if job in x.byJob then x.byJob[job] else {}
  }

  function JobsOf(x: Index, client: Client): set<JobId> {
    if client in x.byClient then x.byClient[client] else {}
  }

  /** The set under a key of the job index, dropping the key with its last member. */
  function WithSubscribers(byJob: map<JobId, set<Client>>, job: JobId,
                           subscribers: set<Client>): map<JobId, set<Client>>
  {
    if subscribers == {} then byJob - {job} else byJob[job := subscribers]
  }

  function WithoutClient(byJob: map<JobId, set<Client>>, client: Client, jobs: set<JobId>): map<JobId, set<Client>> {
    map job | job in byJob && !(job in jobs && byJob[job] - {client} == {}) ::
      if job in jobs then byJob[job] - {client} else byJob[job]
  }

  function Next(x: Index, e: Event): Index {
    match e
    case Add(c) => x.(clients := x.clients + {c}, byClient := x.byClient[c := {}])
    case Remove(c) =>
      Index(x.clients - {c}, WithoutClient(x.byJob, c, JobsOf(x, c)), x.byClient - {c})
    case SubscribeAnswered(c, job, found) =>
      if !found then x
      else x.(byJob := x.byJob[job := SubscribersOf(x, job) + {c}],
              byClient := x.byClient[c := JobsOf(x, c) + {job}])
    case Unsubscribe(c, job) =>
      x.(byJob := if job in x.byJob then WithSubscribers(x.byJob, job, x.byJob[job] - {c}) else x.byJob,
         byClient := if c in x.byClient then x.byClient[c := x.byClient[c] - {job}] else x.byClient)
  }

  function Execute(events: seq<Event>): Index
    decreases |events|
  {
    if events == [] then EMPTY else Next(Execute(events[..|events| - 1]), events[|events| - 1])
  }

  /** The indexes say the same, and no job is kept without subscribers. */
  ghost predicate Agree(x: Index) {
    && (forall job | job in x.byJob :: x.byJob[job] != {})
    && (forall c, job :: c in SubscribersOf(x, job) <==> job in JobsOf(x, c))
  }

  /** What an event does to the two readings of one pair. */
  lemma {:induction false} NextPair(x: Index, e: Event, c: Client, job: JobId)
    ensures var x' := Next(x, e);
            && (c in SubscribersOf(x', job) <==>
                  if e == SubscribeAnswered(c, job, true) then true
                  else if e == Unsubscribe(c, job) || (e == Remove(c) && job in JobsOf(x, c)) then false
                  else c in SubscribersOf(x, job))
            && (job in JobsOf(x', c) <==>
                  if e == SubscribeAnswered(c, job, true) then true
                  else if e == Unsubscribe(c, job) || e == Remove(c) || e == Add(c) then false
                  else job in JobsOf(x, c))
  {
    var x' := Next(x, e);
    assert e.Add? ==> x'.byClient == x.byClient[e.client := {}] && x'.byJob == x.byJob;
  }

  /** Adding a client keeps the indexes in agreement exactly when it has no subscriptions yet: the old
    * ones would stay in the job index only. */
  lemma {:induction false} AddKeepsAgreement(x: Index, c: Client)
    requires Agree(x)
    ensures Agree(Next(x, Add(c))) <==> JobsOf(x, c) == {}
  {
    var x' := Next(x, Add(c));
    forall d, job
      ensures d in SubscribersOf(x', job) <==> job in JobsOf(x, d)
      ensures job in JobsOf(x', d) <==> job in JobsOf(x, d) && d != c
    {
      NextPair(x, Add(c), d, job);
      assert d in SubscribersOf(x, job) <==> job in JobsOf(x, d);
    }
    if Agree(x') {
      forall job
        ensures job !in JobsOf(x, c)
      {
        assert c in SubscribersOf(x', job) <==> job in JobsOf(x', c);
      }
    }
  }

  lemma {:induction false} NextKeepsAgreement(x: Index, e: Event)
    requires Agree(x) && (e.Add? ==> JobsOf(x, e.client) == {})
    ensures Agree(Next(x, e))
  {
    if e.Add? {
      AddKeepsAgreement(x, e.client);
    } else {
      forall c, job
        ensures c in SubscribersOf(Next(x, e), job) <==> job in JobsOf(Next(x, e), c)
      {
        NextPair(x, e, c, job);
        assert c in SubscribersOf(x, job) <==> job in JobsOf(x, c);
      }
    }
  }

  /** Clients are added only while they have no subscriptions. */
  ghost predicate FreshAdds(events: seq<Event>) {
    forall i | 0 <= i < |events| && events[i].Add? :: JobsOf(Execute(events[..i]), events[i].client) == {}
  }

  /** The last event that concerns the client and the job was a successful subscription. */
  predicate Wants(events: seq<Event>, c: Client, job: JobId)
    decreases |events|
  {
    if events == [] then false
    else
      match events[|events| - 1]
      case SubscribeAnswered(d, j, true) => (d == c && j == job) || Wants(events[..|events| - 1], c, job)
      case Unsubscribe(d, j) => !(d == c && j == job) && Wants(events[..|events| - 1], c, job)
      case Remove(d) => d != c && Wants(events[..|events| - 1], c, job)
      case _ => Wants(events[..|events| - 1], c, job)
  }

  /** The last event that adds or removes the client has added it. */
  predicate Joined(events: seq<Event>, c: Client)
    decreases |events|
  {
    if events == [] then false
    else
      match events[|events| - 1]
      case Add(d) => d == c || Joined(events[..|events| - 1], c)
      case Remove(d) => d != c && Joined(events[..|events| - 1], c)
      case _ => Joined(events[..|events| - 1], c)
  }

  /** In every run the connected clients are those that were added and not removed since. */
  lemma {:induction false} ClientsAreJoined(events: seq<Event>, c: Client)
    ensures c in Execute(events).clients <==> Joined(events, c)
    decreases |events|
  {
    if events != [] {
      ClientsAreJoined(events[..|events| - 1], c);
    }
  }

  /** In every run that adds only clients without subscriptions the indexes agree, and a job's
    * subscribers are exactly the clients whose last event for it was a subscription. */
  lemma {:induction false} IndexesAgree(events: seq<Event>)
    requires FreshAdds(events)
    ensures Agree(Execute(events))
    ensures forall c, job :: c in SubscribersOf(Execute(events), job) <==> Wants(events, c, job)
    decreases |events|
  {
    if events != [] {
      var n := |events| - 1;
      var before, e := events[..n], events[n];
      assert forall i | 0 <= i < n :: before[..i] == events[..i];
      IndexesAgree(before);
      NextKeepsAgreement(Execute(before), e);
      forall c, job
        ensures c in SubscribersOf(Execute(events), job) <==> Wants(events, c, job)
      {
        NextPair(Execute(before), e, c, job);
        assert c in SubscribersOf(Execute(before), job) <==> Wants(before, c, job);
      }
    }
  }

  /** Every subscriber is a connected client. */
  ghost predicate Connected(x: Index) {
    forall c, job | c in SubscribersOf(x, job) :: c in x.clients
  }

  /** A subscription answered for a client that is not, or no longer, connected. */
  predicate AnsweredLate(x: Index, e: Event) {
    e.SubscribeAnswered? && e.found && e.client !in x.clients
  }

  /** One event keeps all subscribers connected, except exactly a subscription that is answered late. */
  lemma {:induction false} NextKeepsConnected(x: Index, e: Event)
    requires Agree(x) && Connected(x)
    ensures Connected(Next(x, e)) <==> !AnsweredLate(x, e)
  {
    var x' := Next(x, e);
    forall c, job
      ensures c in SubscribersOf(x', job) && !AnsweredLate(x, e) ==> c in x'.clients
    {
      NextPair(x, e, c, job);
      assert c in SubscribersOf(x, job) <==> job in JobsOf(x, c);
    }
    if AnsweredLate(x, e) {
      NextPair(x, e, e.client, e.job);
      assert e.client in SubscribersOf(x', e.job) && e.client !in x'.clients;
    }
  }

  ghost predicate NeverAnsweredLate(events: seq<Event>) {
    forall i | 0 <= i < |events| :: !AnsweredLate(Execute(events[..i]), events[i])
  }

  /** Without late answers the subscribers of every job are connected clients in every run. */
  lemma {:induction false} SubscribersAreConnected(events: seq<Event>)
    requires FreshAdds(events) && NeverAnsweredLate(events)
    ensures Connected(Execute(events))
    decreases |events|
  {
    if events != [] {
      var n := |events| - 1;
      assert forall i | 0 <= i < n :: events[..n][..i] == events[..i];
      SubscribersAreConnected(events[..n]);
      IndexesAgree(events[..n]);
      NextKeepsConnected(Execute(events[..n]), events[n]);
    }
  }

  // ---------- runs that reach the two exceptions ----------

  function Three(a: Event, b: Event, c: Event): seq<Event> {
    [] + [a] + [b] + [c]
  }

  lemma {:induction false} OneMore(events: seq<Event>, e: Event)
    ensures Execute(events + [e]) == Next(Execute(events), e)
  {
    assert (events + [e])[..|events|] == events;
  }

  lemma {:induction false} ThreeSteps(a: Event, b: Event, c: Event)
    ensures Execute(Three(a, b, c)) == Next(Next(Next(EMPTY, a), b), c)
  {
    OneMore([], a);
    OneMore([] + [a], b);
    OneMore([] + [a] + [b], c);
  }

  /** A client that disconnects while its subscription is looked up stays a subscriber of the job. */
  lemma {:induction false} LateAnswerLeavesSubscriber(c: Client, job: JobId)
    ensures var x := Execute(Three(Add(c), Remove(c), SubscribeAnswered(c, job, true)));
            c in SubscribersOf(x, job) && c !in x.clients && !Connected(x)
  {
    var removed := Next(Next(EMPTY, Add(c)), Remove(c));
    ThreeSteps(Add(c), Remove(c), SubscribeAnswered(c, job, true));
    NextPair(removed, SubscribeAnswered(c, job, true), c, job);
  }

  /** Adding a client again forgets its subscriptions in one index only. */
  lemma {:induction false} SecondAddSplitsIndexes(c: Client, job: JobId)
    ensures var x := Execute(Three(Add(c), SubscribeAnswered(c, job, true), Add(c)));
            c in SubscribersOf(x, job) && job !in JobsOf(x, c) && !Agree(x)
  {
    var subscribed := Next(Next(EMPTY, Add(c)), SubscribeAnswered(c, job, true));
    ThreeSteps(Add(c), SubscribeAnswered(c, job, true), Add(c));
    NextPair(Next(EMPTY, Add(c)), SubscribeAnswered(c, job, true), c, job);
    NextPair(subscribed, Add(c), c, job);
  }

  lemma {:induction false} DropOneMore(byJob: map<JobId, set<Client>>, c: Client, done: set<JobId>, job: JobId)
    requires job !in done
    ensures var byJob' := WithoutClient(byJob, c, done);
            WithoutClient(byJob, c, done + {job}) ==
              if job in byJob' then WithSubscribers(byJob', job, byJob'[job] - {c}) else byJob'
  {
  }

  lemma {:induction false} DropNone(byJob: map<JobId, set<Client>>, c: Client)
    ensures WithoutClient(byJob, c, {}) == byJob
  {
  }

  /** The subscribers of a set that accept messages. */
  ghost function Reached(subscribers: set<Client>, open: set<Client>): set<Client> {
    set c | c in subscribers && c in open
  }

  lemma {:induction false} ReachOneMore(done: set<Client>, open: set<Client>, c: Client)
    requires c !in done
    ensures |Reached(done + {c}, open)| == |Reached(done, open)| + if c in open then 1 else 0
  {
    assert Reached(done + {c}, open) == Reached(done, open) + if c in open then {c} else {};
  }

  type Outbox = map<Client, seq<string>>

  function SentIn(outbox: Outbox, c: Client): seq<string> {
    if c in outbox then outbox[c] else []
  }

  /** Exactly the given clients have got the message, once each. */
  ghost predicate Delivered(before: Outbox, after: Outbox, reached: set<Client>, message: string) {
    forall c :: SentIn(after, c) == SentIn(before, c) + if c in reached then [message] else []
  }

  lemma {:induction false} DeliverOneMore(before: Outbox, middle: Outbox, after: Outbox, done: set<Client>,
                                          open: set<Client>, c: Client, message: string)
    requires Delivered(before, middle, Reached(done, open), message) && c !in done
    requires Delivered(middle, after, if c in open then {c} else {}, message)
    ensures Delivered(before, after, Reached(done + {c}, open), message)
  {
  }

  /** The module's collections, changed in place. `open` are the sockets that accept messages, `outbox`
    * what has been sent to each. */
  class SubscriptionManager {
    var clients: set<Client>
    var subscriptionsByJobId: map<JobId, set<Client>>
    var subscriptionsByClient: map<Client, set<JobId>>
    var open: set<Client>
    var outbox: Outbox

    function State(): Index
      reads this
    {
      Index(clients, subscriptionsByJobId, subscriptionsByClient)
    }

    constructor ()
      ensures State() == EMPTY && Agree(State()) && open == {} && outbox == map[]
    {
      clients, subscriptionsByJobId, subscriptionsByClient := {}, map[], map[];
      open, outbox := {}, map[];
    }

    method AddClient(c: Client)
      modifies this`clients, this`subscriptionsByClient
      ensures State() == Next(old(State()), Add(c))
    {
      clients := clients + {c};
      subscriptionsByClient := subscriptionsByClient[c := {}];
    }

    method DropSubscriber(c: Client, job: JobId)
      modifies this`subscriptionsByJobId
      ensures subscriptionsByJobId ==
        if job in old(subscriptionsByJobId)
        then WithSubscribers(old(subscriptionsByJobId), job, old(subscriptionsByJobId)[job] - {c})
        else old(subscriptionsByJobId)
    {
      if job in subscriptionsByJobId {
        var subscribers := subscriptionsByJobId[job] - {c};
        if subscribers == {} {
          subscriptionsByJobId := subscriptionsByJobId - {job};
        } else {
          subscriptionsByJobId := subscriptionsByJobId[job := subscribers];
        }
      }
    }

    method RemoveClient(c: Client)
      modifies this`clients, this`subscriptionsByJobId, this`subscriptionsByClient
      ensures State() == Next(old(State()), Remove(c))
    {
      var jobs := if c in subscriptionsByClient then subscriptionsByClient[c] else {};
      var remaining := jobs;
      DropNone(subscriptionsByJobId, c);
      while remaining != {}
        invariant remaining <= jobs
        invariant clients == old(clients) && subscriptionsByClient == old(subscriptionsByClient)
        invariant subscriptionsByJobId == WithoutClient(old(subscriptionsByJobId), c, jobs - remaining)
        decreases |remaining|
      {
        var job :| job in remaining;
        DropOneMore(old(subscriptionsByJobId), c, jobs - remaining, job);
        assert jobs - (remaining - {job}) == (jobs - remaining) + {job};
        DropSubscriber(c, job);
        remaining := remaining - {job};
      }
      assert jobs - remaining == jobs;
      subscriptionsByClient := subscriptionsByClient - {c};
      clients := clients - {c};
    }

    /** The part of `subscribeClientToJob` after the job has been looked up. */
    method OnSubscribeAnswered(c: Client, job: JobId, found: bool)
      modifies this`subscriptionsByJobId, this`subscriptionsByClient
      ensures State() == Next(old(State()), SubscribeAnswered(c, job, found))
    {
      if !found {
        return;
      }
      if job !in subscriptionsByJobId {
        subscriptionsByJobId := subscriptionsByJobId[job := {}];
      }
      subscriptionsByJobId := subscriptionsByJobId[job := subscriptionsByJobId[job] + {c}];
      if c !in subscriptionsByClient {
        subscriptionsByClient := subscriptionsByClient[c := {}];
      }
      subscriptionsByClient := subscriptionsByClient[c := subscriptionsByClient[c] + {job}];
    }

    method UnsubscribeClientFromJob(c: Client, job: JobId)
      modifies this`subscriptionsByJobId, this`subscriptionsByClient
      ensures State() == Next(old(State()), Unsubscribe(c, job))
    {
      if c in subscriptionsByClient {
        subscriptionsByClient := subscriptionsByClient[c := subscriptionsByClient[c] - {job}];
      }
      DropSubscriber(c, job);
    }

    method SendJson(c: Client, message: string) returns (sent: bool)
      modifies this`outbox
      ensures sent == (c in open)
      ensures Delivered(old(outbox), outbox, if c in open then {c} else {}, message)
    {
      if c !in open {
        return false;
      }
      outbox := outbox[c := SentIn(outbox, c) + [message]];
      return true;
    }

    /** The loop of `publishToJob` over the subscribers. */
    method Send(subscribers: set<Client>, message: string) returns (sent: nat)
      modifies this`outbox
      ensures Delivered(old(outbox), outbox, Reached(subscribers, open), message)
      ensures sent == |Reached(subscribers, open)|
    {
      sent := 0;
      var remaining := subscribers;
      while remaining != {}
        invariant remaining <= subscribers
        invariant Delivered(old(outbox), outbox, Reached(subscribers - remaining, open), message)
        invariant sent == |Reached(subscribers - remaining, open)|
        decreases |remaining|
      {
        var c :| c in remaining;
        ghost var done, middle := subscribers - remaining, outbox;
        var accepted := SendJson(c, message);
        if accepted {
          sent := sent + 1;
        }
        remaining := remaining - {c};
        assert subscribers - remaining == done + {c};
        ReachOneMore(done, open, c);
        DeliverOneMore(old(outbox), middle, outbox, done, open, c, message);
      }
      assert subscribers - remaining == subscribers;
    }

    /** Sends to exactly the open subscribers, once each, and counts them. After a run that led to this
      * state those are the open clients that last subscribed to the job. */
    method PublishToJob(job: JobId, message: string, ghost events: seq<Event>) returns (sent: nat)
      modifies this`outbox
      ensures Delivered(old(outbox), outbox, Reached(SubscribersOf(State(), job), open), message)
      ensures sent == |Reached(SubscribersOf(State(), job), open)|
      ensures FreshAdds(events) && State() == Execute(events) ==>
                forall c :: c in Reached(SubscribersOf(State(), job), open) <==> Wants(events, c, job) && c in open
    {
      if FreshAdds(events) && State() == Execute(events) {
        IndexesAgree(events);
      }
      if job !in subscriptionsByJobId || subscriptionsByJobId[job] == {} {
        assert SubscribersOf(State(), job) == {} && Reached({}, open) == {};
        return 0;
      }
      sent := Send(subscriptionsByJobId[job], message);
    }
  }
}
