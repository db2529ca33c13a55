/** The cache and Authenticate as they are written, each call a run of the step machine. */
module AuthCache {
  import opened Wrappers
  import opened Auth

  /** The header has an entry that is not expired. */
  predicate Live(m: map<Header, Entry>, header: Header, now: Time) {
    header in m && now < m[header].expires
  }

  /** The first method with an answer. */
  predicate First(methods: seq<Option<User>>, k: nat) {
    k < |methods| && methods[k].Some? && forall j :: 0 <= j < k ==> methods[j].None?
  }

  // A method answers, and its answer is stored a while later.
  lemma Storing(s: State, s1: State, c: nat, header: Header, u: User, delay: nat) returns (s': State)
    requires Goes(s, s1, delay) && c in s1.calls && s1.calls[c].Trying? && s1.calls[c].header == header
    requires s1.calls[c].tried < s1.methods
    ensures Goes(s, s', delay) && s'.now == s1.now + delay && c in s'.calls && s'.calls[c] == Fresh(header, u)
    ensures s'.cache == s1.cache[header := Entry(s'.now + HOUR, u)]
  {
    hide Goes;
    GoOn(s, s1, Respond(c, Some(u)), delay);
    s' := Apply(s1, Respond(c, Some(u)));
    GoOn(s, s', Tick(delay), delay);
    s' := Apply(s', Tick(delay));
    GoOn(s, s', Event.Add(c), delay);
    s' := Apply(s', Event.Add(c));
  }

  class Cache {
    var m: map<Header, Entry>

    constructor ()
      ensures m == map[]
    {
      m := map[];
    }

    method Get(header: Header) returns (v: Option<Entry>)
      ensures v == if header in m then Some(m[header]) else None
    {
      v := if header in m then Some(m[header]) else None;
    }

    method Add(header: Header, u: User, now: Time)
      modifies this
      ensures m == old(m)[header := Entry(now + HOUR, u)]
    {
      m := m[header := Entry(now + HOUR, u)];
    }

    method Delete(header: Header)
      modifies this
      ensures m == old(m) - {header}
    {
      m := m - {header};
    }

    /** The user stored under the header, unless expired, and then the entry is dropped. */
    method Lookup(header: Header, now: Time, ghost s: State, ghost c: nat, ghost delay: nat)
      returns (u: Option<User>, ghost s': State)
      requires s.cache == m && s.now == now && c !in s.calls
      modifies this
      ensures Goes(s, s', delay) && s'.cache == m && s'.now == now && s'.methods == s.methods && c in s'.calls
      ensures s'.calls[c] == if u.Some? then FromCache(header, u.value, now) else Trying(header, 0)
      ensures u == if Live(old(m), header, now) then Some(old(m)[header].user) else None
      ensures m == if u.Some? then old(m) else old(m) - {header}
    {
      hide Goes;
      GoNowhere(s, delay);
      GoOn(s, s, Begin(c, header), delay);
      s' := Apply(s, Begin(c, header));
      u := None;
      var v := Get(header);
      GoOn(s, s', Event.Get(c), delay);
      s' := Apply(s', Event.Get(c));
      if v.Some? {
        GoOn(s, s', Check(c), delay);
        s' := Apply(s', Check(c));
        if now < v.value.expires {
          u := Some(v.value.user);
        } else {
          Delete(header);
          GoOn(s, s', Event.Delete(c), delay);
          s' := Apply(s', Event.Delete(c));
        }
      }
    }

    /**
      * The user the header authenticates, from the cache or from the first method that knows it. The
      * clock is read at the lookup and when an answer is stored; `answered` is when the methods answer.
      */
    method Authenticate(header: Header, now: Time, methods: seq<Option<User>>, ghost answered: Time, stored: Time,
                        ghost s: State, ghost c: nat)
      returns (u: Option<User>, ghost s': State)
      requires s.cache == m && s.now == now <= answered <= stored && c !in s.calls && s.methods == |methods|
      modifies this
      ensures Goes(s, s', stored - answered) && s'.cache == m && c in s'.calls
      ensures match s'.calls[c] case FromCache(h, v, t) => h == header && u == Some(v) && t == now
                                case Fresh(h, v) => h == header && u == Some(v) && s'.now == stored
                                case Refused(h) => h == header && u == None
                                case _ => false
      // From the cache, while the entry there is not expired.
      ensures Live(old(m), header, now) ==> u == Some(old(m)[header].user) && m == old(m)
      // Or the answer of the first method that has one, now stored for an hour.
      ensures forall k: nat :: !Live(old(m), header, now) && First(methods, k) ==>
                u == methods[k] && m == old(m)[header := Entry(stored + HOUR, methods[k].value)]
      // Or none, and nothing is left under the header.
      ensures !Live(old(m), header, now) && (forall k :: 0 <= k < |methods| ==> methods[k].None?) ==>
                u == None && m == old(m) - {header}
    {
      hide Goes;
      ghost var delay := stored - answered;
      u, s' := Lookup(header, now, s, c, delay);
      if u.Some? { return; }
      GoOn(s, s', Tick(answered - now), delay);
      s' := Apply(s', Tick(answered - now));
      var i := 0;
      while i < |methods|
        invariant 0 <= i <= |methods| && u == None && forall j :: 0 <= j < i ==> methods[j].None?
        invariant m == old(m) - {header}
        invariant Goes(s, s', delay) && s'.cache == m && s'.now == answered && s'.methods == |methods|
        invariant c in s'.calls && s'.calls[c] == Trying(header, i)
      {
        u := methods[i];
        if u.Some? {
          assert First(methods, i) && forall k: nat :: First(methods, k) ==> k == i;
          Add(header, u.value, stored);
          assert m == old(m)[header := Entry(stored + HOUR, u.value)];
          s' := Storing(s, s', c, header, u.value, delay);
          return;
        }
        GoOn(s, s', Respond(c, None), delay);
        s' := Apply(s', Respond(c, None));
        i := i + 1;
      }
      GoOn(s, s', GiveUp(c), delay);
      s' := Apply(s', GiveUp(c));
    }
  }
}
