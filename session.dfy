/**
 * A session stored in a cookie: the values and expiry decoded from (or destined for) a
 * token, a lazily computed and cached token (`id`), and the `detached` flag that tells
 * the transport layer the cookie must be rewritten. `register`, `value` and `remove`
 * check liveness against the clock reading `now`; `keys` and `id` do not. `register`
 * and a successful `remove` discard the cached token; `destroy` does not.
 */
module CookieSession {
  import opened Wrappers
  import opened SessionData
  import opened CookieBased

  /** A result, or the `SessionInvalid` exception, which carries the session's id. */
  datatype Outcome<T> = Done(value: T) | SessionInvalid(id: string)

  class Session {
    const sessions: Config
    var values: Entries
    var expires: int
    var id: Option<string>
    var detached: bool
    /** The expiry the cached token was serialized with. */
    ghost var idExpires: int

    /** Cache coherence: a cached id is the token of the current values. Its expiry is
        the current one unless `destroy` moved the expiry after it was cached. */
    ghost predicate Valid()
      reads this
    {
      id.Some? ==> id.value == Serialize(sessions, values, idExpires)
    }

    /** Liveness: reads and writes are allowed strictly before the expiry. */
    predicate Live(now: int)
      reads this
    {
      now < expires
    }

    constructor (sessions: Config, values: Entries, expires: int)
      ensures Valid()
      ensures this.sessions == sessions && this.values == values && this.expires == expires
      ensures id == None && !detached
    {
      this.sessions := sessions;
      this.values := values;
      this.expires := expires;
      this.id := None;
      this.detached := false;
      this.idExpires := expires;
    }

    /** `id()`: the cached token, or the token of the current values and expiry, which
        is then cached. */
    method Id() returns (token: string)
      requires Valid()
      modifies this`id, this`idExpires
      ensures Valid()
      ensures id == Some(token)
      ensures token == Serialize(sessions, values, idExpires)
      ensures old(id).Some? ==> token == old(id).value && idExpires == old(idExpires)
      ensures old(id).None? ==> token == Serialize(sessions, values, expires) && idExpires == expires
    {
      if id.None? {
        id := Some(Serialize(sessions, values, expires));
        idExpires := expires;
      }
      token := id.value;
    }

    /** `destroy()`: the expiry moves to one second before `now`; the cached id stays. */
    method Destroy(now: int)
      requires Valid()
      modifies this`expires, this`detached
      ensures Valid()
      ensures expires == now - 1 && !detached
      ensures forall t | t >= now :: !Live(t)
    {
      expires := now - 1;
      detached := false;
    }

    /** `keys()`: the names present, in insertion order; not gated on liveness. */
    function Keys(): (names: seq<string>)
      reads this
      ensures forall n :: n in names <==> Lookup(values, n).Some?
      ensures forall i, j | 0 <= i < j < |names| :: names[i] != names[j]
    {
      Names(values)
    }

    /** `register(name, value)` */
    method Register(name: string, value: Value, now: int) returns (r: Outcome<()>)
      requires Valid()
      modifies this
      ensures Valid()
      ensures expires == old(expires)
      ensures r.SessionInvalid? <==> !old(Live(now))
      ensures r.SessionInvalid? ==>
        && values == old(values) && detached == old(detached) && id == Some(r.id)
        && (old(id).Some? ==> id == old(id))
        && (old(id).None? ==> r.id == Serialize(sessions, values, expires))
      ensures r.Done? ==>
        && values == Put(old(values), name, [value])
        && id == None && detached
      ensures r.Done? ==> Keys() == if name in old(Keys()) then old(Keys()) else old(Keys()) + [name]
    {
      if now >= expires {
        var token := Id();
        return SessionInvalid(token);
      }
      values := Put(values, name, [value]);
      detached := true;
      id := None;
      r := Done(());
    }

    /** `value(name, default)` */
    method Value(name: string, default: Value, now: int) returns (r: Outcome<Value>)
      requires Valid()
      modifies this`id, this`idExpires
      ensures Valid()
      ensures r.SessionInvalid? <==> !Live(now)
      ensures r.SessionInvalid? ==>
        && id == Some(r.id)
        && (old(id).Some? ==> id == old(id))
        && (old(id).None? ==> r.id == Serialize(sessions, values, expires))
      ensures r.Done? ==> r.value == Fetch(values, name, default) && id == old(id) && idExpires == old(idExpires)
    {
      if now >= expires {
        var token := Id();
        return SessionInvalid(token);
      }
      r := Done(Fetch(values, name, default));
    }

    /** `remove(name)` */
    method Remove(name: string, now: int) returns (r: Outcome<bool>)
      requires Valid()
      modifies this
      ensures Valid()
      ensures expires == old(expires)
      ensures r.SessionInvalid? <==> !old(Live(now))
      ensures r.SessionInvalid? ==>
        && values == old(values) && detached == old(detached) && id == Some(r.id)
        && (old(id).Some? ==> id == old(id))
        && (old(id).None? ==> r.id == Serialize(sessions, values, expires))
      ensures r.Done? ==> r.value == (name in Names(old(values))) && name !in Names(values)
      ensures r == Done(true) ==> values == Delete(old(values), name) && id == None && detached
      ensures r == Done(true) ==> exists k | 0 <= k < |old(Keys())| && old(Keys())[k] == name ::
        Keys() == old(Keys())[..k] + old(Keys())[k + 1..]
      ensures r == Done(false) ==> values == old(values) && id == old(id) && detached == old(detached)
    {
      if now >= expires {
        var token := Id();
        return SessionInvalid(token);
      }
      if Lookup(values, name).None? {
        return Done(false);
      }
      ghost var k := Find(values, name).value;
      ghost var before := Keys();
      values := Delete(values, name);
      assert Keys() == before[..k] + before[k + 1..];
      detached := true;
      id := None;
      r := Done(true);
    }
  }

  /** `create()`: an empty session lasting the configured duration from `now`. */
  method Create(c: Config, now: int) returns (s: Session)
    ensures fresh(s) && s.Valid()
    ensures s.sessions == c && s.values == [] && s.expires == now + c.duration
    ensures s.id == None && !s.detached
  {
    s := new Session(c, [], now + c.duration);
  }

  /** `open(token)`: a session holding the token's payload, or null. */
  method OpenSession(c: Config, token: string, now: int) returns (s: Session?)
    ensures s == null <==> Open(c, token, now) == None
    ensures s != null ==> fresh(s) && s.Valid() && s.sessions == c && s.id == None && !s.detached
    ensures s != null ==> Payload(s.values, s.expires) == Open(c, token, now).value
  {
    var p := Open(c, token, now);
    if p.None? {
      return null;
    }
    s := new Session(c, p.value.values, p.value.expire);
  }

  /** Writing then reading in a fresh session gives the value back. */
  method ReadWrite(c: Config, now: int) returns (v: Outcome<Value>)
    requires c.duration > 0
    ensures v == Done(Str("value"))
  {
    var s := Create(c, now);
    var _ := s.Register("name", Str("value"), now);
    v := s.Value("name", Null, now);
  }

  /** Reading an absent name gives the default. */
  method ReadAbsent(c: Config, now: int) returns (v: Outcome<Value>)
    requires c.duration > 0
    ensures v == Done(Str("Default value"))
  {
    var s := Create(c, now);
    v := s.Value("name", Str("Default value"), now);
  }

  /** Removing a registered name succeeds and leaves it absent; removing it again fails. */
  method RemoveTwice(c: Config, now: int) returns (first: Outcome<bool>, second: Outcome<bool>, v: Outcome<Value>)
    requires c.duration > 0
    ensures first == Done(true) && second == Done(false) && v == Done(Null)
  {
    var s := Create(c, now);
    var _ := s.Register("name", Str("value"), now);
    first := s.Remove("name", now);
    second := s.Remove("name", now);
    v := s.Value("name", Null, now);
  }

  /** Keys start empty and list new names in the order they were registered;
      re-registering a name keeps its place. */
  method KeysInOrder(c: Config, now: int) returns (before: seq<string>, after: seq<string>)
    requires c.duration > 0
    ensures before == [] && after == ["name1", "name2"]
  {
    var s := Create(c, now);
    before := s.Keys();
    var _ := s.Register("name1", Str("value1"), now);
    var _ := s.Register("name2", Str("value2"), now);
    var _ := s.Register("name1", Str("value3"), now);
    after := s.Keys();
  }

  /** After `destroy`, reading, writing and removing all raise `SessionInvalid`, at the
      time of destruction and later. */
  method UseAfterDestroy(c: Config, now: int, later: int) returns (read: Outcome<Value>, write: Outcome<()>, removal: Outcome<bool>)
    requires now <= later
    ensures read.SessionInvalid? && write.SessionInvalid? && removal.SessionInvalid?
  {
    var s := Create(c, now);
    s.Destroy(now);
    read := s.Value("any", Null, later);
    write := s.Register("any", Str("value"), later);
    removal := s.Remove("any", later);
  }

  /** The token of a session opens, in a new session, to the values registered. */
  method OpenRegistered(c: Config, now: int) returns (v: Outcome<Value>)
    requires Sound(c) && c.duration > 0
    ensures v == Done(Str("Test"))
  {
    var s := Create(c, now);
    var _ := s.Register("id", Str("Test"), now);
    var token := s.Id();
    EnvelopeRoundTrip(c, s.values, s.expires, now);
    var t := OpenSession(c, token, now);
    v := t.Value("id", Null, now);
  }

  /** Registering a value changes the id: the two tokens open to different values. */
  method IdChangesOnRegister(c: Config, now: int) returns (before: string, after: string)
    requires Sound(c) && c.duration > 0
    ensures before != after
  {
    var s := Create(c, now);
    before := s.Id();
    ghost var e := s.expires;
    assert before == Serialize(c, [], e);
    var _ := s.Register("key", Str("value"), now);
    after := s.Id();
    ghost var vs := s.values;
    assert after == Serialize(c, vs, e);
    assert Lookup(vs, "key").Some?;
    EnvelopeRoundTrip(c, [], e, now);
    EnvelopeRoundTrip(c, vs, e, now);
    assert Open(c, before, now) != Open(c, after, now);
  }

  /** A destroyed session whose id is first computed afterwards yields a token that opens
      to nothing. */
  method DestroyedTokenIsRejected(c: Config, now: int) returns (t: Session?)
    requires Sound(c)
    ensures t == null
  {
    var s := Create(c, now);
    s.Destroy(now);
    var token := s.Id();
    EnvelopeRoundTrip(c, s.values, s.expires, now);
    t := OpenSession(c, token, now);
  }

  /** `destroy` leaves a cached id in place: an id computed before it is returned again
      afterwards, and that token still opens to a live session. */
  method CachedIdSurvivesDestroy(c: Config, now: int) returns (before: string, after: string, t: Session?)
    requires Sound(c) && c.duration >= 0
    ensures before == after && t != null
  {
    var s := Create(c, now);
    before := s.Id();
    ghost var e, vs := s.expires, s.values;
    s.Destroy(now);
    after := s.Id();
    assert after == Serialize(c, vs, e);
    EnvelopeRoundTrip(c, vs, e, now);
    t := OpenSession(c, after, now);
  }
}
