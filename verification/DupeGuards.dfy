/** The duplicate-identity guard: a capped, lazily swept memory of entry attempts, and when
    it answers like an unbounded log of them. */
module DupeGuards {
  import opened Metrics

  const DEFAULT_WINDOW_HOURS: nat := 4
  const HOUR_MS: int := 3_600_000
  const PRUNE_INTERVAL_MS: int := 60_000
  const MAX_MINTS_PER_IDENTITY: nat := 8

  type Identity = nat

  datatype Mode = Paper | Real

  datatype Seen = Seen(mint: string, at: Ts)

  /** One mode's memory: identity to the mints traded under it, newest mint last. */
  type Memory = map<Identity, seq<Seen>>

  datatype Guard = Guard(enabled: bool, window: int, paperSeen: Memory, realSeen: Memory, nextPruneAt: Option<Ts>)

  const FRESH := Guard(false, DEFAULT_WINDOW_HOURS * HOUR_MS, map[], map[], None)

  function MemoryOf(g: Guard, mode: Mode): Memory {
    match mode
    case Paper => g.paperSeen
    case Real => g.realSeen
  }

  function EntriesOf(g: Guard, mode: Mode, id: Identity): seq<Seen> {
    var m := MemoryOf(g, mode);
    if id in m then m[id] else []
  }

  // ---- one operation at a time ----------------------------------------------

  /** Zero hours means the default window, never "block nothing". */
  function WindowMs(hours: nat): (ms: int)
    ensures ms == if hours == 0 then 14_400_000 else 3_600_000 * hours
  {
    (if hours == 0 then DEFAULT_WINDOW_HOURS else hours) * HOUR_MS
  }

  function WithPolicy(g: Guard, enabled: bool, hours: nat): Guard {
    g.(enabled := enabled, window := WindowMs(hours))
  }

  /** Attempts at or before this are outside the window. */
  function Cutoff(g: Guard, now: Ts): Ts {
    now - g.window
  }

  predicate OtherLive(entries: seq<Seen>, mint: string, cutoff: Ts) {
    exists e | e in entries :: e.mint != mint && e.at > cutoff
  }

  predicate Blocks(g: Guard, mode: Mode, identity: Option<Identity>, mint: string, now: Ts) {
    g.enabled && identity.Some? && OtherLive(EntriesOf(g, mode, identity.value), mint, Cutoff(g, now))
  }

  function IndexOfMint(entries: seq<Seen>, mint: string): (i: nat)
    ensures i <= |entries|
    ensures i < |entries| ==> entries[i].mint == mint
    ensures forall j | 0 <= j < i :: entries[j].mint != mint
  {
    if entries == [] || entries[0].mint == mint then 0 else 1 + IndexOfMint(entries[1..], mint)
  }

  /** The first mint in makes room; a known mint only moves its own time forward. */
  function Put(entries: seq<Seen>, mint: string, at: Ts): seq<Seen> {
    var i := IndexOfMint(entries, mint);
    if i < |entries| then
      if entries[i].at < at then entries[i := Seen(mint, at)] else entries
    else
      (if |entries| >= MAX_MINTS_PER_IDENTITY then entries[1..] else entries) + [Seen(mint, at)]
  }

  function Remember(m: Memory, id: Identity, mint: string, at: Ts): Memory {
    m[id := Put(if id in m then m[id] else [], mint, at)]
  }

  /** A disabled guard, or a token with no identity, records nothing. */
  function Recorded(g: Guard, mode: Mode, identity: Option<Identity>, mint: string, at: Ts): Guard {
    if !g.enabled || identity.None? then g
    else
      match mode
      case Paper => g.(paperSeen := Remember(g.paperSeen, identity.value, mint, at))
      case Real => g.(realSeen := Remember(g.realSeen, identity.value, mint, at))
  }

  function KeepAfter(entries: seq<Seen>, cutoff: Ts): (out: seq<Seen>)
    ensures forall e :: e in out <==> e in entries && e.at > cutoff
  {
    if entries == [] then []
    else
      var n := |entries| - 1;
      assert entries == entries[..n] + [entries[n]];
      KeepAfter(entries[..n], cutoff) + if entries[n].at > cutoff then [entries[n]] else []
  }

  function Swept(m: Memory, cutoff: Ts): Memory {
    map id | id in m && KeepAfter(m[id], cutoff) != [] :: KeepAfter(m[id], cutoff)
  }

  predicate PruneDue(g: Guard, now: Ts) {
    g.nextPruneAt.None? || g.nextPruneAt.value <= now
  }

  function Pruned(g: Guard, now: Ts): Guard {
    if !PruneDue(g, now) then g
    else
      g.(paperSeen := Swept(g.paperSeen, Cutoff(g, now)), realSeen := Swept(g.realSeen, Cutoff(g, now)),
         nextPruneAt := Some(now + PRUNE_INTERVAL_MS))
  }

  /** A guard nobody has configured blocks nothing and remembers nothing; switched off again
      it blocks nothing either. */
  lemma UnsetGuardIsOff(g: Guard, hours: nat, mode: Mode, identity: Option<Identity>, mint: string, now: Ts)
    ensures !Blocks(FRESH, mode, identity, mint, now) && Recorded(FRESH, mode, identity, mint, now) == FRESH
    ensures !Blocks(WithPolicy(g, false, hours), mode, identity, mint, now)
  {
  }

  /** Once it has swept, the guard does not sweep again for a minute, and from then on it is
      due. */
  lemma SweepsAMinuteApart(g: Guard, now: Ts, later: Ts)
    requires PruneDue(g, now)
    ensures PruneDue(Pruned(g, now), later) <==> later - now >= 60_000
    ensures later - now < 60_000 ==> Pruned(Pruned(g, now), later) == Pruned(g, now)
  {
  }

  // ---- the object -----------------------------------------------------------

  class DupeGuard {
    var enabled: bool
    var window: int
    var paperSeen: Memory
    var realSeen: Memory
    var nextPruneAt: Option<Ts>

    function State(): Guard
      reads this
    {
      Guard(enabled, window, paperSeen, realSeen, nextPruneAt)
    }

    constructor ()
      ensures State() == FRESH
    {
      enabled := false;
      window := DEFAULT_WINDOW_HOURS * HOUR_MS;
      paperSeen := map[];
      realSeen := map[];
      nextPruneAt := None;
    }

    method SetPolicy(enabled: bool, windowHours: nat)
      modifies this
      ensures State() == WithPolicy(old(State()), enabled, windowHours)
    {
      this.enabled := enabled;
      var hours := if windowHours == 0 then DEFAULT_WINDOW_HOURS else windowHours;
      window := hours * HOUR_MS;
    }

    /** Reads only: a blocked decision cannot extend its own block. */
    method IsBlocked(mode: Mode, identity: Option<Identity>, mint: string, now: Ts) returns (blocked: bool)
      ensures blocked == Blocks(State(), mode, identity, mint, now)
    {
      if !enabled || identity.None? {
        return false;
      }
      var entries := EntriesOf(State(), mode, identity.value);
      var cutoff := now - window;
      for i := 0 to |entries|
        invariant !OtherLive(entries[..i], mint, cutoff)
      {
        if entries[i].mint != mint && entries[i].at > cutoff {
          assert entries[i] in entries;
          return true;
        }
        assert entries[..i + 1] == entries[..i] + [entries[i]];
      }
      assert entries[..|entries|] == entries;
      return false;
    }

    method Record(mode: Mode, identity: Option<Identity>, mint: string, at: Ts)
      modifies this
      ensures State() == Recorded(old(State()), mode, identity, mint, at)
    {
      if !enabled || identity.None? {
        return;
      }
      var id := identity.value;
      var entries := EntriesOf(State(), mode, id);
      var i := 0;
      while i < |entries| && entries[i].mint != mint
        invariant i <= |entries|
        invariant forall j | 0 <= j < i :: entries[j].mint != mint
      {
        i := i + 1;
      }
      assert i == IndexOfMint(entries, mint);
      if i < |entries| {
        if entries[i].at < at {
          entries := entries[i := Seen(mint, at)];
        }
      } else {
        if |entries| >= MAX_MINTS_PER_IDENTITY {
          entries := entries[1..];
        }
        entries := entries + [Seen(mint, at)];
      }
      match mode
      case Paper => paperSeen := paperSeen[id := entries];
      case Real => realSeen := realSeen[id := entries];
    }

    /** Driven by event time; at most one sweep a minute. */
    method Prune(now: Ts)
      modifies this
      ensures State() == Pruned(old(State()), now)
    {
      if nextPruneAt.Some? && now < nextPruneAt.value {
        return;
      }
      nextPruneAt := Some(now + PRUNE_INTERVAL_MS);
      var cutoff := now - window;
      assert cutoff == Cutoff(old(State()), now);
      paperSeen := Sweep(paperSeen, cutoff);
      realSeen := Sweep(realSeen, cutoff);
    }

    static method Retain(entries: seq<Seen>, cutoff: Ts) returns (kept: seq<Seen>)
      ensures kept == KeepAfter(entries, cutoff)
    {
      kept := [];
      for i := 0 to |entries|
        invariant kept == KeepAfter(entries[..i], cutoff)
      {
        assert entries[..i + 1][..i] == entries[..i];
        if entries[i].at > cutoff {
          kept := kept + [entries[i]];
        }
      }
      assert entries[..|entries|] == entries;
    }

    static method Sweep(m: Memory, cutoff: Ts) returns (out: Memory)
      ensures out == Swept(m, cutoff)
    {
      out := map[];
      var todo := m.Keys;
      while todo != {}
        invariant todo <= m.Keys
        invariant forall id :: id in out <==> id in m && id !in todo && KeepAfter(m[id], cutoff) != []
        invariant forall id | id in out :: out[id] == KeepAfter(m[id], cutoff)
        decreases todo
      {
        var id :| id in todo;
        todo := todo - {id};
        var kept := Retain(m[id], cutoff);
        if kept != [] {
          out := out[id := kept];
        }
      }
    }
  }
}
