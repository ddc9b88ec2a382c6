/**
 The online lease of one worker id, fought over by any number of registry
 instances: each command below is one script or one SET, hence one step.
 */
module WorkerLeases {
  import opened Wrappers

  /** What the key may hold: the current payload, or what older versions wrote. */
  datatype Presence =
    | Payload(token: Option<string>, lastSeen: int)
    | LegacyOne
    | LegacyScalar(text: string)
    | Unparseable

  datatype Lease = Lease(presence: Presence, expiresAt: int)

  /** The key, each instance's token for it, the clock, and the tokens that ever got a heartbeat through. */
  datatype State = State(lease: Option<Lease>, tokens: map<string, string>, now: nat, heard: set<string>)

  datatype Event =
    | Claim(instance: string, minted: string, ttl: nat)
    | Heartbeat(instance: string, ttl: nat)
    | Refresh(instance: string, ttl: nat)
    | Release(instance: string, token: string)
    | MarkInactive(instance: string, token: string)
    | Advance(ms: nat)

  /** An expired key is gone. */
  function Held(s: State): Option<Presence> {
    if s.lease.Some? && s.now < s.lease.value.expiresAt then Some(s.lease.value.presence) else None
  }

  function StoredToken(p: Presence): Option<string> {
    match p
    case Payload(token, _) => token
    case LegacyScalar(text) => Some(text)
    case _ => None
  }

  function TokenOf(tokens: map<string, string>, instance: string): string {
    if instance in tokens then tokens[instance] else ""
  }

  /** An explicit token, else the instance's own, else the empty one. */
  function Expected(s: State, instance: string, token: string): string {
    if token != "" then token else TokenOf(s.tokens, instance)
  }

  /**
   Whom the heartbeat script lets write: a token over nothing or itself, no
   token over nothing or an unowned payload.
   */
  predicate HeartbeatAllowed(held: Option<Presence>, token: string) {
    held.None?
    || (!held.value.Unparseable? && StoredToken(held.value) == if token != "" then Some(token) else None)
  }

  predicate ReleaseAllowed(held: Option<Presence>, token: string) {
    if token == "" then true else held.Some? && StoredToken(held.value) == Some(token)
  }

  predicate RefreshAllowed(held: Option<Presence>, token: string) {
    token != "" && held.Some? && StoredToken(held.value) == Some(token)
  }

  function Until(s: State, ttl: nat): int { s.now + ttl * 1000 }

  /** Whether the command reports success. */
  predicate Succeeds(s: State, e: Event) {
    match e
    case Claim(_, _, _) => Held(s).None?
    case Heartbeat(i, _) => HeartbeatAllowed(Held(s), TokenOf(s.tokens, i))
    case Refresh(i, _) => RefreshAllowed(Held(s), TokenOf(s.tokens, i))
    case Release(i, token) => Expected(s, i, token) != "" && ReleaseAllowed(Held(s), Expected(s, i, token))
    case MarkInactive(i, token) => ReleaseAllowed(Held(s), Expected(s, i, token))
    case Advance(_) => true
  }

  function Next(s: State, e: Event): State {
    if !Succeeds(s, e) then s
    else match e
      case Claim(i, minted, ttl) =>
        s.(lease := Some(Lease(Payload(Some(minted), 0), Until(s, ttl))), tokens := s.tokens[i := minted])
      case Heartbeat(i, ttl) =>
        var token := TokenOf(s.tokens, i);
        s.(lease := Some(Lease(Payload(if token != "" then Some(token) else None, s.now), Until(s, ttl))),
           heard := if token != "" then s.heard + {token} else s.heard)
      case Refresh(_, ttl) => s.(lease := Some(Lease(s.lease.value.presence, Until(s, ttl))))
      case Release(i, _) => s.(lease := None, tokens := s.tokens - {i})
      case MarkInactive(_, _) => s.(lease := None)
      case Advance(ms) => s.(now := s.now + ms)
  }

  // ---------------------------------------------------------------- the registry's commands

  class LeaseRegistry {
    var lease: Option<Lease>
    var tokens: map<string, string>
    var now: nat
    ghost var heard: set<string>

    ghost function Current(): State
      reads this
    {
      State(lease, tokens, now, heard)
    }

    method Get() returns (raw: Option<Presence>)
      ensures raw == Held(Current())
    {
      raw := if lease.Some? && now < lease.value.expiresAt then Some(lease.value.presence) else None;
    }

    method ClaimWorkerId(instance: string, minted: string, ttl: nat) returns (ok: bool)
      modifies this`lease, this`tokens
      ensures ok == Succeeds(old(Current()), Claim(instance, minted, ttl))
      ensures Current() == Next(old(Current()), Claim(instance, minted, ttl))
    {
      var raw := Get();
      if raw.Some? {
        return false;
      }
      lease := Some(Lease(Payload(Some(minted), 0), now + ttl * 1000));
      tokens := tokens[instance := minted];
      return true;
    }

    /** The compare-and-set script: 1 written, 0 owned by someone else, -1 unparseable. */
    method HeartbeatCas(token: string, value: Presence, ttl: nat) returns (code: int)
      modifies this`lease
      ensures code == 1 <==> HeartbeatAllowed(Held(old(Current())), token)
      ensures code == -1 <==> token != "" && Held(old(Current())) == Some(Unparseable)
      ensures lease == if code == 1 then Some(Lease(value, now + ttl * 1000)) else old(lease)
    {
      var raw := Get();
      if token != "" {
        if raw.None? {
          lease := Some(Lease(value, now + ttl * 1000));
          return 1;
        }
        if raw.value.Unparseable? {
          return -1;
        }
        var stored := StoredToken(raw.value);
        if stored.None? {
          return 0;
        }
        if stored.value != token {
          return 0;
        }
        lease := Some(Lease(value, now + ttl * 1000));
        return 1;
      }
      if raw.Some? {
        if raw.value.Unparseable? {
          return 0;
        }
        if StoredToken(raw.value).Some? {
          return 0;
        }
      }
      lease := Some(Lease(value, now + ttl * 1000));
      return 1;
    }

    method HeartbeatWorker(instance: string, ttl: nat) returns (ok: bool)
      modifies this`lease, this`heard
      ensures ok == Succeeds(old(Current()), Heartbeat(instance, ttl))
      ensures Current() == Next(old(Current()), Heartbeat(instance, ttl))
    {
      var token := TokenOf(tokens, instance);
      var code := HeartbeatCas(token, Payload(if token != "" then Some(token) else None, now), ttl);
      if code == -1 {
        return false;
      }
      if code == 0 {
        return false;
      }
      if code == 1 && token != "" {
        heard := heard + {token};
      }
      return code == 1;
    }

    method RefreshWorkerIdLock(instance: string, ttl: nat) returns (ok: bool)
      modifies this`lease
      ensures ok == Succeeds(old(Current()), Refresh(instance, ttl))
      ensures Current() == Next(old(Current()), Refresh(instance, ttl))
    {
      var token := TokenOf(tokens, instance);
      if token == "" {
        return false;
      }
      var raw := Get();
      if raw.None? || StoredToken(raw.value) != Some(token) {
        return false;
      }
      lease := Some(Lease(raw.value, now + ttl * 1000));
      return true;
    }

    /** The release script; the empty token deletes whatever is there. */
    method ReleaseScript(token: string) returns (ok: bool)
      modifies this`lease
      ensures ok == ReleaseAllowed(Held(old(Current())), token)
      ensures lease == old(lease) || lease == None
      ensures ok ==> Held(Current()) == None
      ensures !ok ==> lease == old(lease)
    {
      var raw := Get();
      if raw.None? {
        return token == "";
      }
      if token != "" && StoredToken(raw.value) != Some(token) {
        return false;
      }
      lease := None;
      return true;
    }

    method ReleaseWorkerId(instance: string, token: string) returns (ok: bool)
      modifies this`lease, this`tokens
      ensures ok == Succeeds(old(Current()), Release(instance, token))
      ensures SameKey(Current(), Next(old(Current()), Release(instance, token)))
    {
      var expected := if token != "" then token else TokenOf(tokens, instance);
      if expected == "" {
        return false;
      }
      ok := ReleaseScript(expected);
      if ok {
        tokens := tokens - {instance};
      }
    }

    method MarkWorkerInactive(instance: string, token: string) returns (ok: bool)
      modifies this`lease
      ensures ok == Succeeds(old(Current()), MarkInactive(instance, token))
      ensures SameKey(Current(), Next(old(Current()), MarkInactive(instance, token)))
    {
      var expected := if token != "" then token else TokenOf(tokens, instance);
      ok := ReleaseScript(expected);
    }

    /** The online check: any legacy presence, or a payload that was heard from. */
    method CheckWorkerOnline() returns (online: bool)
      ensures online == Online(Current())
    {
      var raw := Get();
      online := raw.Some? && (!raw.value.Payload? || raw.value.lastSeen > 0);
    }
  }

  /** The same state, an expired key counting as none. */
  predicate SameKey(a: State, b: State) {
    a.tokens == b.tokens && a.now == b.now && a.heard == b.heard
      && (a.lease == b.lease || (Held(a).None? && Held(b).None?))
  }

  predicate Online(s: State) {
    Held(s).Some? && (!Held(s).value.Payload? || Held(s).value.lastSeen > 0)
  }

  // ---------------------------------------------------------------- exclusivity

  function Holder(s: State): Option<string> {
    if Held(s).Some? then StoredToken(Held(s).value) else None
  }

  /** The only steps that take a token's lease away: its own release, an unconditional release, expiry. */
  predicate Ends(s: State, e: Event, token: string) {
    match e
    case Release(i, t) => Expected(s, i, t) == token
    case MarkInactive(i, t) => Expected(s, i, t) == "" || Expected(s, i, t) == token
    case Advance(ms) => s.lease.Some? && s.lease.value.expiresAt <= s.now + ms
    case Heartbeat(_, ttl) => Succeeds(s, e) && ttl == 0
    case Refresh(_, ttl) => Succeeds(s, e) && ttl == 0
    case Claim(_, _, _) => false
  }

  /**
   A holder stays the holder in exactly the steps that do not end its lease,
   and an ended lease passes to nobody directly.
   */
  lemma HolderStep(s: State, e: Event, token: string)
    requires Holder(s) == Some(token) && token != ""
    ensures Holder(Next(s, e)) == Some(token) <==> !Ends(s, e, token)
    ensures Ends(s, e, token) ==> Held(Next(s, e)).None?
  {
  }

  /** A free key, and only a free one, can be claimed, and the claimant is the holder. */
  lemma ClaimTakesFreeKey(s: State, instance: string, minted: string, ttl: nat)
    requires ttl > 0
    ensures Succeeds(s, Claim(instance, minted, ttl)) <==> Held(s).None?
    ensures Held(s).None? ==>
              var after := Next(s, Claim(instance, minted, ttl));
              Holder(after) == Some(minted) && TokenOf(after.tokens, instance) == minted && !Online(after)
  {
  }

  /**
   Whom a heartbeat or a refresh gets through for: over a held key, exactly its
   holder, or, over a key held by nobody's token, an instance without one.
   */
  lemma RenewsIff(s: State, instance: string, ttl: nat)
    requires Held(s).Some? && ttl > 0
    ensures var token := TokenOf(s.tokens, instance);
      && (Succeeds(s, Heartbeat(instance, ttl)) <==>
            if token != "" then Holder(s) == Some(token) else Holder(s).None? && !Held(s).value.Unparseable?)
      && (Succeeds(s, Refresh(instance, ttl)) <==> token != "" && Holder(s) == Some(token))
      && (Succeeds(s, Heartbeat(instance, ttl)) && token != "" ==>
            Holder(Next(s, Heartbeat(instance, ttl))) == Some(token)
            && (s.now > 0 ==> Online(Next(s, Heartbeat(instance, ttl)))))
  {
  }

  /** A released instance has no token left: it can refresh nothing, and its next claim needs a free key. */
  lemma ReleaseForgets(s: State, instance: string, token: string, ttl: nat)
    requires Succeeds(s, Release(instance, token))
    ensures var after := Next(s, Release(instance, token));
      && Held(after).None? && TokenOf(after.tokens, instance) == "" && !Succeeds(after, Refresh(instance, ttl))
      && !Succeeds(after, Release(instance, ""))
      && forall other :: other != instance ==> TokenOf(after.tokens, other) == TokenOf(s.tokens, other)
  {
  }

  /**
   What older versions wrote counts as online for as long as it is there. A
   plain text is owned by the instance whose token it is, a one by nobody, and
   what does not parse cannot be renewed at all.
   */
  lemma LegacyPresence(s: State, instance: string, ttl: nat)
    requires Held(s).Some? && !Held(s).value.Payload?
    ensures Online(s)
    ensures Succeeds(s, Heartbeat(instance, ttl)) <==>
            match Held(s).value
            case LegacyScalar(text) => text != "" && TokenOf(s.tokens, instance) == text
            case LegacyOne => TokenOf(s.tokens, instance) == ""
            case _ => false
  {
  }

  function Run(s: State, events: seq<Event>): State {
    if events == [] then s else Next(Run(s, events[..|events| - 1]), events[|events| - 1])
  }

  ghost predicate EndsDuring(s: State, events: seq<Event>, token: string) {
    exists i :: 0 <= i < |events| && Ends(Run(s, events[..i]), events[i], token)
  }

  lemma {:induction false} HolderOverRun(s: State, events: seq<Event>, token: string)
    requires Holder(s) == Some(token) && token != "" && !EndsDuring(s, events, token)
    ensures Holder(Run(s, events)) == Some(token)
  {
    hide Ends, Next, Holder;
    if events != [] {
      var n := |events| - 1;
      forall i | 0 <= i < n ensures events[..n][..i] == events[..i] && events[..n][i] == events[i] {}
      assert !EndsDuring(s, events[..n], token) by {
        forall i | 0 <= i < n ensures !Ends(Run(s, events[..n][..i]), events[..n][i], token) {
          assert !Ends(Run(s, events[..i]), events[i], token);
        }
      }
      HolderOverRun(s, events[..n], token);
      assert !Ends(Run(s, events[..n]), events[n], token);
      HolderStep(Run(s, events[..n]), events[n], token);
    }
  }

  predicate Acquires(e: Event) { e.Claim? || e.Heartbeat? || e.Refresh? }

  /** The token an acquiring step leaves as the holder's. */
  function Acting(s: State, e: Event): string
    requires Acquires(e)
  {
    if e.Claim? then e.minted else TokenOf(s.tokens, e.instance)
  }

  predicate LivesOn(e: Event) { Acquires(e) && e.ttl > 0 }

  /**
   Exclusivity: after one token's successful claim, heartbeat or refresh, no
   other token gets one through until that lease was released or ran out.
   */
  lemma ExclusiveUntilEnded(s: State, first: Event, events: seq<Event>, second: Event)
    requires LivesOn(first) && Acquires(second) && Succeeds(s, first) && Acting(s, first) != ""
    requires var later := Run(Next(s, first), events);
      Succeeds(later, second) && Acting(later, second) != Acting(s, first)
    ensures EndsDuring(Next(s, first), events, Acting(s, first))
  {
    var token, after := Acting(s, first), Next(s, first);
    assert Holder(after) == Some(token);
    if !EndsDuring(after, events, token) {
      HolderOverRun(after, events, token);
    }
  }

  // ---------------------------------------------------------------- kept by heartbeats in time

  /**
   The instance heartbeats before the time left runs out, again and again, and
   its token, minted for it alone, is released by nobody; nobody who has no
   token marks the worker inactive. left is the time the lease still has.
   */
  ghost predicate BeatsInTime(s: State, events: seq<Event>, instance: string, token: string, left: int)
    decreases |events|
  {
    && left > 0
    && (events != [] ==>
          var e, rest := events[0], events[1..];
          && (e.Claim? ==> e.instance != instance)
          && (e.Release? ==> Expected(s, e.instance, e.token) != token && e.instance != instance)
          && (e.MarkInactive? ==> Expected(s, e.instance, e.token) !in {"", token})
          && ((e.Heartbeat? || e.Refresh?) && TokenOf(s.tokens, e.instance) == token ==> e.ttl > 0)
          && BeatsInTime(Next(s, e), rest, instance, token,
                         if (e.Heartbeat? || e.Refresh?) && TokenOf(s.tokens, e.instance) == token then e.ttl * 1000
                         else if e.Advance? then left - e.ms
                         else left))
  }

  lemma {:induction false} FirstStep(s: State, events: seq<Event>)
    requires events != []
    ensures Run(s, events) == Run(Next(s, events[0]), events[1..])
  {
    hide Next;
    var n := |events| - 1;
    if n > 0 {
      FirstStep(s, events[..n]);
      assert events[1..][..n - 1] == events[..n][1..];
    } else {
      assert events[..0] == [] && events[1..] == [];
    }
  }

  ghost predicate HoldsFor(s: State, instance: string, token: string, left: int) {
    && token != "" && TokenOf(s.tokens, instance) == token
    && Holder(s) == Some(token) && s.lease.value.expiresAt == s.now + left
  }

  lemma BeatStep(s: State, e: Event, instance: string, token: string, left: int)
    requires HoldsFor(s, instance, token, left) && BeatsInTime(s, [e], instance, token, left)
    ensures HoldsFor(Next(s, e), instance, token,
                     if (e.Heartbeat? || e.Refresh?) && TokenOf(s.tokens, e.instance) == token then e.ttl * 1000
                     else if e.Advance? then left - e.ms
                     else left)
    ensures e.Heartbeat? && e.instance == instance ==> Succeeds(s, e)
  {
    assert [e][1..] == [];
    assert BeatsInTime(Next(s, e), [], instance, token,
                       if (e.Heartbeat? || e.Refresh?) && TokenOf(s.tokens, e.instance) == token then e.ttl * 1000
                       else if e.Advance? then left - e.ms else left);
  }

  /**
   A holder that heartbeats or refreshes before its lease runs out keeps it,
   whatever other instances claim, heartbeat, refresh, release or mark with
   tokens of their own.
   */
  lemma {:induction false} HeldByBeats(s: State, events: seq<Event>, instance: string, token: string, left: int)
    requires HoldsFor(s, instance, token, left) && BeatsInTime(s, events, instance, token, left)
    ensures Holder(Run(s, events)) == Some(token) && TokenOf(Run(s, events).tokens, instance) == token
    decreases |events|
  {
    hide Next, Holder, Expected, Succeeds;
    if events != [] {
      var e := events[0];
      var leftThen := if (e.Heartbeat? || e.Refresh?) && TokenOf(s.tokens, e.instance) == token then e.ttl * 1000
                      else if e.Advance? then left - e.ms else left;
      OneBeat(s, events, instance, token, left);
      BeatStep(s, e, instance, token, left);
      HeldByBeats(Next(s, e), events[1..], instance, token, leftThen);
      FirstStep(s, events);
    }
  }

  lemma OneBeat(s: State, events: seq<Event>, instance: string, token: string, left: int)
    requires events != [] && BeatsInTime(s, events, instance, token, left)
    ensures BeatsInTime(s, [events[0]], instance, token, left)
  {
    assert [events[0]][1..] == [];
  }

  /** Marking a worker inactive takes the lease from its holder exactly when the token used is the holder's or empty. */
  lemma MarkInactiveTakesIff(s: State, instance: string, token: string, holder: string)
    requires Holder(s) == Some(holder) && holder != ""
    ensures Holder(Next(s, MarkInactive(instance, token))) != Some(holder)
       <==> token == holder || (token == "" && TokenOf(s.tokens, instance) in {"", holder})
  {
    HolderStep(s, MarkInactive(instance, token), holder);
  }

  // ---------------------------------------------------------------- online means heard from

  /** Each claim mints a token nobody ever held. */
  predicate MintsFresh(s: State, e: Event) {
    e.Claim? ==> e.minted != "" && e.minted !in s.heard && forall i :: i in s.tokens ==> s.tokens[i] != e.minted
  }

  ghost predicate FreshRun(s: State, events: seq<Event>) {
    forall i :: 0 <= i < |events| ==> MintsFresh(Run(s, events[..i]), events[i])
  }

  /** A payload's token was heard from exactly when the payload says it was seen. */
  predicate Truthful(s: State) {
    && s.now > 0
    && (s.lease.Some? ==>
          && s.lease.value.presence.Payload?
          && 0 <= s.lease.value.presence.lastSeen
          && var p := s.lease.value.presence;
             match p.token
             case None => p.lastSeen > 0
             case Some(token) => token != "" && (token in s.heard <==> p.lastSeen > 0))
  }

  lemma TruthfulStep(s: State, e: Event)
    requires Truthful(s) && MintsFresh(s, e)
    ensures Truthful(Next(s, e))
  {
  }

  /**
   From an empty key, in every run: a lease held with a token is reported
   online exactly when that token has had a successful heartbeat; claiming
   and refreshing alone never make a worker online.
   */
  lemma {:induction false} OnlineIffHeard(now: nat, events: seq<Event>)
    requires now > 0 && FreshRun(State(None, map[], now, {}), events)
    ensures var end := Run(State(None, map[], now, {}), events);
      && Truthful(end)
      && (Holder(end).Some? ==> (Online(end) <==> Holder(end).value in end.heard))
  {
    var start := State(None, map[], now, {});
    if events != [] {
      var n := |events| - 1;
      forall i | 0 <= i < n ensures events[..n][..i] == events[..i] && events[..n][i] == events[i] {}
      forall i | 0 <= i < n ensures MintsFresh(Run(start, events[..n][..i]), events[..n][i]) {
        assert MintsFresh(Run(start, events[..i]), events[i]);
      }
      OnlineIffHeard(now, events[..n]);
      assert MintsFresh(Run(start, events[..n]), events[n]);
      TruthfulStep(Run(start, events[..n]), events[n]);
    }
  }
}
