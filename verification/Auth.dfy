/** Concurrent authentication over a shared cache, as steps of threads that may interleave in any order. */
module Auth {
  import opened Wrappers

  type Time = nat
  type Header = string
  datatype User = User(name: string)

  /** An hour on a clock of nanoseconds. */
  const HOUR: nat := 3_600_000_000_000

  datatype Entry = Entry(expires: Time, user: User)

  /** Where a call of Authenticate stands. */
  datatype Phase =
    | Looking(header: Header)
    | Found(header: Header, entry: Entry)
    | Deleting(header: Header)
    | Trying(header: Header, tried: nat)
    | Adding(header: Header, user: User, made: Time)
    | FromCache(header: Header, user: User, checked: Time)
    | Fresh(header: Header, user: User)
    | Refused(header: Header)

  /** A user that an auth method produced for a header, and when. */
  datatype Answer = Answer(header: Header, user: User, made: Time)

  /** An answer put into the cache, and when. */
  datatype Stored = Stored(answer: Answer, put: Time)

  /** The cache, the clock and the calls, with the history of answers and of what was stored. */
  datatype State = State(
    methods: nat,
    now: Time,
    cache: map<Header, Entry>,
    calls: map<nat, Phase>,
    answers: set<Answer>,
    stored: set<Stored>)

  datatype Event =
    | Begin(call: nat, header: Header)
    | Get(call: nat)
    | Check(call: nat)
    | Delete(call: nat)
    | Respond(call: nat, user: Option<User>)
    | Add(call: nat)
    | GiveUp(call: nat)
    | Tick(span: nat)

  function Initial(methods: nat): State {
    State(methods, 0, map[], map[], {}, {})
  }

  predicate Enabled(s: State, e: Event) {
    match e
    case Begin(c, _) => c !in s.calls
    case Get(c) => c in s.calls && s.calls[c].Looking?
    case Check(c) => c in s.calls && s.calls[c].Found?
    case Delete(c) => c in s.calls && s.calls[c].Deleting?
    case Respond(c, _) => c in s.calls && s.calls[c].Trying? && s.calls[c].tried < s.methods
    case Add(c) => c in s.calls && s.calls[c].Adding?
    case GiveUp(c) => c in s.calls && s.calls[c].Trying? && s.calls[c].tried >= s.methods
    case Tick(_) => true
  }

  /** One step. Each critical section of the cache is one step; between them anything may happen. */
  function Apply(s: State, e: Event): State
    requires Enabled(s, e)
  {
    match e
    case Begin(c, h) => At(s, c, Looking(h))
    case Get(c) =>
      var h := s.calls[c].header;
      At(s, c, if h in s.cache then Found(h, s.cache[h]) else Trying(h, 0))
    case Check(c) =>
      var p := s.calls[c];
      At(s, c, if s.now < p.entry.expires then FromCache(p.header, p.entry.user, s.now) else Deleting(p.header))
    case Delete(c) =>
      var h := s.calls[c].header;
      At(s.(cache := s.cache - {h}), c, Trying(h, 0))
    case Respond(c, None) =>
      var p := s.calls[c];
      At(s, c, Trying(p.header, p.tried + 1))
    case Respond(c, Some(u)) =>
      var h := s.calls[c].header;
      At(s.(answers := s.answers + {Answer(h, u, s.now)}), c, Adding(h, u, s.now))
    case Add(c) =>
      var p := s.calls[c];
      At(s.(cache := s.cache[p.header := Entry(s.now + HOUR, p.user)],
            stored := s.stored + {Stored(Answer(p.header, p.user, p.made), s.now)}),
         c, Fresh(p.header, p.user))
    case GiveUp(c) => At(s, c, Refused(s.calls[c].header))
    case Tick(span) => s.(now := s.now + span)
  }

  function At(s: State, c: nat, p: Phase): State {
    s.(calls := s.calls[c := p])
  }

  /** `events` lead from `s` to `end`, and no answer waits longer than `delay` before it is stored. */
  ghost predicate Leads(s: State, events: seq<Event>, end: State, delay: nat)
    decreases |events|
  {
    if events == [] then s == end
    else
      && Enabled(s, events[0]) && Prompt(s, events[0], delay)
      && Leads(Apply(s, events[0]), events[1..], end, delay)
  }

  predicate Prompt(s: State, e: Event, delay: nat)
    requires Enabled(s, e)
  {
    e.Add? ==> s.now - s.calls[e.call].made <= delay
  }

  // ----- The invariant -----

  /** An entry comes from an answer for its header that was stored an hour before the entry expires. */
  ghost predicate Backed(s: State, h: Header, e: Entry) {
    exists st: Stored :: st in s.stored && st.answer.header == h
                         && st.answer.user == e.user && e.expires == st.put + HOUR
  }

  ghost predicate History(s: State, delay: nat) {
    && (forall a :: a in s.answers ==> a.made <= s.now)
    && (forall st :: st in s.stored ==> st.answer in s.answers && st.answer.made <= st.put <= s.now
                                        && st.put - st.answer.made <= delay)
  }

  ghost predicate CallOk(s: State, p: Phase) {
    match p
    case Found(h, e) => Backed(s, h, e)
    case Adding(h, u, made) => Answer(h, u, made) in s.answers
    case FromCache(h, u, checked) =>
      exists st: Stored :: st in s.stored && st.answer.header == h && st.answer.user == u
                          && st.put <= checked < st.put + HOUR
    case Fresh(h, u) => exists a: Answer :: a in s.answers && a.header == h && a.user == u
    case _ => true
  }

  ghost predicate Inv(s: State, delay: nat) {
    && History(s, delay)
    && (forall h :: h in s.cache ==> Backed(s, h, s.cache[h]))
    && (forall c :: c in s.calls ==> CallOk(s, s.calls[c]))
  }

  lemma InitialOk(methods: nat, delay: nat)
    ensures Inv(Initial(methods), delay)
  {}

  // Histories only grow.
  ghost predicate Extends(s: State, s': State) {
    s.answers <= s'.answers && s.stored <= s'.stored
  }

  lemma StillOk(s: State, s': State, p: Phase)
    requires Extends(s, s') && CallOk(s, p)
    ensures CallOk(s', p)
  {}

  lemma StillBacked(s: State, s': State, h: Header, e: Entry)
    requires Extends(s, s') && Backed(s, h, e)
    ensures Backed(s', h, e)
  {}

  lemma ApplyHistory(s: State, e: Event, delay: nat)
    requires Inv(s, delay) && Enabled(s, e) && Prompt(s, e, delay)
    ensures Extends(s, Apply(s, e)) && History(Apply(s, e), delay)
  {
    if e.Add? { assert CallOk(s, s.calls[e.call]); }
  }

  lemma ApplyCall(s: State, e: Event, delay: nat)
    requires Inv(s, delay) && Enabled(s, e) && !e.Tick?
    ensures CallOk(Apply(s, e), Apply(s, e).calls[e.call])
  {
    var s' := Apply(s, e);
    if e.Check? {
      assert CallOk(s, s.calls[e.call]);
    } else if e.Add? {
      var p := s.calls[e.call];
      assert CallOk(s, p);
      assert Answer(p.header, p.user, p.made) in s'.answers;
    }
  }

  lemma ApplyCache(s: State, e: Event, delay: nat, h: Header)
    requires Inv(s, delay) && Enabled(s, e) && h in Apply(s, e).cache
    ensures Backed(Apply(s, e), h, Apply(s, e).cache[h])
  {
    var s' := Apply(s, e);
    if e.Add? && h == s.calls[e.call].header {
      var p := s.calls[e.call];
      assert Stored(Answer(p.header, p.user, p.made), s.now) in s'.stored;
    } else {
      StillBacked(s, s', h, s.cache[h]);
    }
  }

  lemma ApplyKeeps(s: State, e: Event, delay: nat)
    requires Inv(s, delay) && Enabled(s, e) && Prompt(s, e, delay)
    ensures Inv(Apply(s, e), delay)
  {
    var s' := Apply(s, e);
    ApplyHistory(s, e, delay);
    forall h | h in s'.cache ensures Backed(s', h, s'.cache[h]) { ApplyCache(s, e, delay, h); }
    forall c | c in s'.calls ensures CallOk(s', s'.calls[c]) {
      if !e.Tick? && c == e.call { ApplyCall(s, e, delay); } else { StillOk(s, s', s.calls[c]); }
    }
  }

  lemma {:induction false} LeadsKeeps(s: State, events: seq<Event>, end: State, delay: nat)
    requires Inv(s, delay) && Leads(s, events, end, delay)
    ensures Inv(end, delay)
    decreases |events|
  {
    if events != [] {
      ApplyKeeps(s, events[0], delay);
      LeadsKeeps(Apply(s, events[0]), events[1..], end, delay);
    }
  }

  // ----- What a returned user is worth -----

  /** The user was produced for the header, at most `age` before the expiry check that accepted it. */
  ghost predicate ProducedWithin(s: State, h: Header, u: User, checked: Time, age: nat) {
    exists a :: a in s.answers && a.header == h && a.user == u && a.made <= checked <= a.made + age
  }

  /**
    * On every interleaving: a user from the cache was produced for that same header, and the check that
    * accepted it came less than an hour after it was stored; a user not from the cache was just produced.
    */
  lemma ReturnedUsersWereProduced(methods: nat, events: seq<Event>, end: State, delay: nat, c: nat)
    requires Leads(Initial(methods), events, end, delay) && c in end.calls
    ensures var p := end.calls[c];
            && (p.FromCache? ==> ProducedWithin(end, p.header, p.user, p.checked, delay + HOUR - 1))
            && (p.Fresh? ==> exists a :: a in end.answers && a.header == p.header && a.user == p.user)
  {
    InitialOk(methods, delay);
    LeadsKeeps(Initial(methods), events, end, delay);
    hide Leads;
    var p := end.calls[c];
    assert CallOk(end, p);
    if p.FromCache? {
      var st :| st in end.stored && st.answer.header == p.header && st.answer.user == p.user
                && st.put <= p.checked < st.put + HOUR;
      assert st.answer in end.answers;
    }
  }

  /** No accepted user is older than an hour. */
  ghost predicate AllYoung(s: State) {
    forall c :: c in s.calls && s.calls[c].FromCache? ==>
      ProducedWithin(s, s.calls[c].header, s.calls[c].user, s.calls[c].checked, HOUR)
  }

  /**
    * Expiry counts from storing, not from producing. So all accepted users are at most an hour old on
    * every run exactly if answers are stored without delay.
    */
  lemma YoungIffPrompt(delay: nat)
    ensures (forall methods, events, end :: Leads(Initial(methods), events, end, delay) ==> AllYoung(end))
            <==> delay <= 1
  {
    if delay <= 1 {
      forall methods, events, end | Leads(Initial(methods), events, end, delay) ensures AllYoung(end) {
        forall c | c in end.calls && end.calls[c].FromCache?
          ensures ProducedWithin(end, end.calls[c].header, end.calls[c].user, end.calls[c].checked, HOUR)
        {
          ReturnedUsersWereProduced(methods, events, end, delay, c);
        }
      }
    } else {
      LateStore(delay);
    }
  }

  // One more event after a run.
  lemma {:induction false} LeadsOn(s: State, events: seq<Event>, mid: State, e: Event, delay: nat)
    requires Leads(s, events, mid, delay) && Enabled(mid, e) && Prompt(mid, e, delay)
    ensures Leads(s, events + [e], Apply(mid, e), delay)
    decreases |events|
  {
    hide Apply, Enabled;
    if events == [] {
      assert events + [e] == [e] && [e][1..] == [];
    } else {
      LeadsOn(Apply(s, events[0]), events[1..], mid, e, delay);
      assert (events + [e])[1..] == events[1..] + [e];
    }
  }

  /** Some run leads from one state to another. */
  ghost predicate Goes(s: State, end: State, delay: nat) {
    exists events :: Leads(s, events, end, delay)
  }

  lemma GoOn(s: State, mid: State, e: Event, delay: nat)
    requires Goes(s, mid, delay) && Enabled(mid, e) && Prompt(mid, e, delay)
    ensures Goes(s, Apply(mid, e), delay)
  {
    var events :| Leads(s, events, mid, delay);
    LeadsOn(s, events, mid, e, delay);
  }

  lemma GoNowhere(s: State, delay: nat)
    ensures Goes(s, s, delay)
  {
    assert Leads(s, [], s, delay);
  }

  /** Reached by threads that have one auth method. */
  ghost predicate Reached(s: State, delay: nat) {
    Goes(Initial(1), s, delay)
  }

  lemma Start(delay: nat)
    ensures Reached(Initial(1), delay)
  {
    GoNowhere(Initial(1), delay);
  }

  lemma Reach(s: State, e: Event, delay: nat)
    requires Reached(s, delay) && Enabled(s, e) && Prompt(s, e, delay)
    ensures Reached(Apply(s, e), delay)
  {
    GoOn(Initial(1), s, e, delay);
  }

  // A call that finds nothing, asks, and stores the answer after some time.
  lemma FirstCall(h: Header, u: User, wait: nat, delay: nat) returns (s: State)
    requires wait <= delay
    ensures Reached(s, delay) && s == State(1, wait, map[h := Entry(wait + HOUR, u)], map[0 := Fresh(h, u)],
                                            {Answer(h, u, 0)}, {Stored(Answer(h, u, 0), wait)})
  {
    hide Reached;
    s := Initial(1);
    Start(delay);
    Reach(s, Begin(0, h), delay);
    s := Apply(s, Begin(0, h));
    Reach(s, Get(0), delay);
    s := Apply(s, Get(0));
    Reach(s, Respond(0, Some(u)), delay);
    s := Apply(s, Respond(0, Some(u)));
    Reach(s, Tick(wait), delay);
    s := Apply(s, Tick(wait));
    Reach(s, Add(0), delay);
    s := Apply(s, Add(0));
  }

  lemma LateStore(delay: nat)
    requires delay >= 2
    ensures exists events, end :: Leads(Initial(1), events, end, delay) && !AllYoung(end)
  {
    var h, u := "", User("");
    var s := FirstCall(h, u, delay, delay);
    s := LateAccept(s, h, u, delay);
    var events :| Leads(Initial(1), events, s, delay);
  }

  lemma LateAccept(s: State, h: Header, u: User, delay: nat) returns (s': State)
    requires delay >= 2 && Reached(s, delay)
    requires s == State(1, delay, map[h := Entry(delay + HOUR, u)], map[0 := Fresh(h, u)],
                        {Answer(h, u, 0)}, {Stored(Answer(h, u, 0), delay)})
    ensures Reached(s', delay) && !AllYoung(s')
  {
    hide Reached;
    s' := s;
    Reach(s', Begin(1, h), delay);
    s' := Apply(s', Begin(1, h));
    Reach(s', Tick(HOUR - 1), delay);
    s' := Apply(s', Tick(HOUR - 1));
    Reach(s', Get(1), delay);
    s' := Apply(s', Get(1));
    Reach(s', Check(1), delay);
    s' := Apply(s', Check(1));
    assert s'.calls[1] == FromCache(h, u, delay + HOUR - 1);
  }

  // ----- When an entry stays -----

  /** A call that will delete the header's entry though it expires later than what the call has read. */
  ghost predicate Threatens(p: Phase, h: Header, expires: Time) {
    p == Deleting(h) || (p.Found? && p.header == h && p.entry.expires < expires)
  }

  /** No call threatens an entry for `h` that expires no sooner than `expires`, and there is one. */
  ghost predicate Kept(s: State, h: Header, expires: Time) {
    && h in s.cache && s.cache[h].expires >= expires
    && (forall c :: c in s.calls ==> !Threatens(s.calls[c], h, expires))
    && expires <= s.now + HOUR
  }

  lemma ApplyKept(s: State, e: Event, h: Header, expires: Time)
    requires Kept(s, h, expires) && Enabled(s, e) && s.now < expires
    ensures Kept(Apply(s, e), h, expires)
  {
    var s' := Apply(s, e);
    if !e.Tick? {
      assert e.call in s.calls ==> !Threatens(s.calls[e.call], h, expires);
      forall c | c in s'.calls ensures !Threatens(s'.calls[c], h, expires) {
        if c != e.call { assert s'.calls[c] == s.calls[c]; }
      }
    }
  }

  lemma {:induction false} LeadsLater(s: State, events: seq<Event>, end: State, delay: nat)
    requires Leads(s, events, end, delay)
    ensures s.now <= end.now
    decreases |events|
  {
    if events != [] { LeadsLater(Apply(s, events[0]), events[1..], end, delay); }
  }

  lemma {:induction false} LeadsKept(s: State, events: seq<Event>, end: State, delay: nat, h: Header, expires: Time)
    requires Leads(s, events, end, delay) && Kept(s, h, expires) && end.now < expires
    ensures Kept(end, h, expires)
    decreases |events|
  {
    hide Kept;
    if events != [] {
      LeadsLater(s, events, end, delay);
      ApplyKept(s, events[0], h, expires);
      LeadsKept(Apply(s, events[0]), events[1..], end, delay, h, expires);
    }
  }

  // A call that threatens the entry can take it away in time.
  lemma {:induction false} ThreatCarriedOut(s: State, c: nat, h: Header, delay: nat) returns (end: State)
    requires h in s.cache && s.now < s.cache[h].expires && c in s.calls && Threatens(s.calls[c], h, s.cache[h].expires)
    ensures Goes(s, end, delay) && end.now < s.cache[h].expires && h !in end.cache
  {
    hide Goes;
    GoNowhere(s, delay);
    end := s;
    if s.calls[c].Found? {
      var late := s.calls[c].entry.expires;
      var wait := if s.now < late then late - s.now else 0;
      GoOn(s, end, Tick(wait), delay);
      end := Apply(end, Tick(wait));
      GoOn(s, end, Check(c), delay);
      end := Apply(end, Check(c));
    }
    GoOn(s, end, Delete(c), delay);
    end := Apply(end, Delete(c));
  }

  /**
    * From any reachable state: an entry that has not expired stays, or is replaced by a later one, on every
    * run that ends before it expires, exactly if no call is about to delete under its header or has read an
    * entry there that expires sooner.
    */
  lemma {:induction false} EntryStaysIff(s: State, h: Header, delay: nat)
    requires Inv(s, delay) && h in s.cache && s.now < s.cache[h].expires
    ensures (forall end :: Goes(s, end, delay) && end.now < s.cache[h].expires ==> h in end.cache) <==>
            (forall c :: c in s.calls ==> !Threatens(s.calls[c], h, s.cache[h].expires))
  {
    var expires := s.cache[h].expires;
    if c :| c in s.calls && Threatens(s.calls[c], h, expires) {
      var end := ThreatCarriedOut(s, c, h, delay);
    } else {
      assert Kept(s, h, expires) by {
        var st :| st in s.stored && expires == st.put + HOUR;
      }
      forall end | Goes(s, end, delay) && end.now < expires ensures h in end.cache {
        var events :| Leads(s, events, end, delay);
        LeadsKept(s, events, end, delay, h, expires);
      }
    }
  }

  /** A thread may delete an entry that another has just refreshed: then a call asks again, and no more is lost. */
  lemma RefreshMayBeLost()
    ensures exists s, st :: Reached(s, 0) && st in s.stored && s.now < st.put + HOUR && st.answer.header !in s.cache
  {
    var h, u := "", User("");
    var s := FirstCall(h, u, 0, 0);
    s := TwoExpired(s, h, u);
    s := DeleteRefreshed(s, h, u);
    var st := Stored(Answer(h, u, HOUR), HOUR);
    assert st in s.stored;
  }

  lemma TwoExpired(s: State, h: Header, u: User) returns (s': State)
    requires Reached(s, 0)
    requires s == State(1, 0, map[h := Entry(HOUR, u)], map[0 := Fresh(h, u)],
                        {Answer(h, u, 0)}, {Stored(Answer(h, u, 0), 0)})
    ensures Reached(s', 0) && s'.now == HOUR && s'.methods == 1
    ensures 1 in s'.calls && s'.calls[1] == Deleting(h) && 2 in s'.calls && s'.calls[2] == Deleting(h)
  {
    hide Reached;
    s' := s;
    Reach(s', Tick(HOUR), 0);
    s' := Apply(s', Tick(HOUR));
    Reach(s', Begin(1, h), 0);
    s' := Apply(s', Begin(1, h));
    Reach(s', Get(1), 0);
    s' := Apply(s', Get(1));
    Reach(s', Check(1), 0);
    s' := Apply(s', Check(1));
    Reach(s', Begin(2, h), 0);
    s' := Apply(s', Begin(2, h));
    Reach(s', Get(2), 0);
    s' := Apply(s', Get(2));
    Reach(s', Check(2), 0);
    s' := Apply(s', Check(2));
  }

  lemma DeleteRefreshed(s: State, h: Header, u: User) returns (s': State)
    requires Reached(s, 0) && s.now == HOUR && s.methods == 1
    requires 1 in s.calls && s.calls[1] == Deleting(h) && 2 in s.calls && s.calls[2] == Deleting(h)
    ensures Reached(s', 0) && s'.now == HOUR && h !in s'.cache && Stored(Answer(h, u, HOUR), HOUR) in s'.stored
  {
    hide Reached;
    s' := s;
    Reach(s', Delete(1), 0);
    s' := Apply(s', Delete(1));
    Reach(s', Respond(1, Some(u)), 0);
    s' := Apply(s', Respond(1, Some(u)));
    Reach(s', Add(1), 0);
    s' := Apply(s', Add(1));
    Reach(s', Delete(2), 0);
    s' := Apply(s', Delete(2));
  }

  // ----- Refusals -----

  /** How many methods answered a call with no user. */
  function Nones(events: seq<Event>, c: nat): nat {
    if events == [] then 0 else (if events[0] == Respond(c, None) then 1 else 0) + Nones(events[1..], c)
  }

  /** The methods a call has asked in vain, as long as none has given it a user. */
  function Asked(s: State, c: nat): Option<nat> {
    if c !in s.calls then Some(0)
    else
      match s.calls[c]
      case Looking(_) => Some(0)
      case Found(_, _) => Some(0)
      case Deleting(_) => Some(0)
      case Trying(_, n) => Some(n)
      case Refused(_) => Some(s.methods)
      case _ => None
  }

  ghost predicate Within(s: State) {
    forall c :: c in s.calls && s.calls[c].Trying? ==> s.calls[c].tried <= s.methods
  }

  lemma AskedOn(s: State, e: Event, c: nat)
    requires Enabled(s, e) && Within(s)
    ensures var s' := Apply(s, e);
            && Within(s') && s'.methods == s.methods
            && (Asked(s', c).Some? ==>
                  Asked(s, c).Some? && Asked(s', c).value == Asked(s, c).value + if e == Respond(c, None) then 1 else 0)
  {}

  lemma {:induction false} AskedAlong(s: State, events: seq<Event>, end: State, delay: nat, c: nat)
    requires Leads(s, events, end, delay) && Within(s)
    ensures end.methods == s.methods
    ensures Asked(end, c).Some? ==> Asked(s, c).Some? && Asked(end, c).value == Asked(s, c).value + Nones(events, c)
    decreases |events|
  {
    hide Asked, Within, Apply, Enabled, Prompt;
    if events != [] {
      AskedOn(s, events[0], c);
      AskedAlong(Apply(s, events[0]), events[1..], end, delay, c);
    }
  }

  /** On every run, a call that is refused has asked every method, and each in vain. */
  lemma {:induction false} RefusedByAll(methods: nat, events: seq<Event>, end: State, delay: nat, c: nat)
    requires Leads(Initial(methods), events, end, delay) && c in end.calls && end.calls[c].Refused?
    ensures Nones(events, c) == methods
  {
    hide Leads;
    AskedAlong(Initial(methods), events, end, delay, c);
  }
}
