/** Reads, writes and evictions on the arrays of the levels, each proved to do what the functions of
    module Cache do to the levels' values (src/cache/read.c, src/cache/write.c, src/cache/eviction.c). */
module CacheObjects {
  import opened CacheSet
  import opened CacheLevel
  import opened Cache
  import opened CacheArray

  class Dram {
    const readLatency: nat
    const writeLatency: nat
    ghost var cells: map<nat, int>   // what the RAM would hold if the levels carried data
  }

  ghost function Objects(levels: seq<LevelArray>, dram: Dram, k: nat): set<object>
    requires k <= |levels|
    decreases |levels| - k
  {
    if k == |levels| then {dram} else {levels[k], levels[k].lines} + Objects(levels, dram, k + 1)
  }

  lemma {:induction false} ReadMisses(l: Level, b: Memory, a: nat, now: nat)
    requires l.Shaped() && Shaped(b) && l.Lookup(a).Free?
    ensures
      var below := Read(b, a, now);
      var e := Evict(l, below.0, a, now);
      Read(Cached(l, b), a, now) ==
        if !below.1.Stall? then (Cached(l, below.0), below.1)
        else if e.1.Stall? then (CountRead(e.0, 0, 1), Stall(l.p.readLatency + below.1.n + e.1.n))
        else e
  {
  }

  /** One first level and the levels below it. The instruction and data sides are two of these that
      share all levels but the first. */
  class Hierarchy {
    const levels: seq<LevelArray>
    const dram: Dram

    /** The objects from level k down. */
    ghost const frames: seq<set<object>>

    constructor (levels: seq<LevelArray>, dram: Dram)
      ensures this.levels == levels && this.dram == dram && Wired()
    {
      this.levels := levels;
      this.dram := dram;
      this.frames := seq(|levels| + 1, k requires 0 <= k <= |levels| => Objects(levels, dram, k));
    }

    ghost predicate Wired() {
      |frames| == |levels| + 1 && forall k | 0 <= k <= |levels| :: frames[k] == Objects(levels, dram, k)
    }

    ghost predicate Valid(k: nat)
      requires Wired() && k <= |levels|
      reads frames[k]
      decreases |levels| - k
    {
      k < |levels| ==>
        levels[k].Valid() && levels[k] !in frames[k + 1] && levels[k].lines !in frames[k + 1] && Valid(k + 1)
    }

    ghost function Value(k: nat): (m: Memory)
      requires Wired() && k <= |levels| && Valid(k)
      reads frames[k]
      ensures Shaped(m) && (m.Ram? <==> k == |levels|)
      decreases |levels| - k
    {
      if k == |levels| then Ram(dram.cells, dram.readLatency, dram.writeLatency)
      else Cached(levels[k].Model(), Value(k + 1))
    }

    /** Level k apart from the levels below it. */
    ghost predicate Split(k: nat)
      requires Wired() && k < |levels|
      reads frames[k]
    {
      levels[k].Valid() && levels[k] !in frames[k + 1] && levels[k].lines !in frames[k + 1] && Valid(k + 1)
    }

    lemma {:induction false} Unfold(k: nat)
      requires Wired() && k < |levels|
      ensures Valid(k) <==> Split(k)
      ensures levels[k] in frames[k] && levels[k].lines in frames[k] && frames[k + 1] <= frames[k]
      ensures Valid(k) ==> Value(k) == Cached(levels[k].Model(), Value(k + 1))
    {
    }

    // ---- steps at one level ----

    method CountAt(k: nat, onRead: Counts, onWrite: Counts, writebacks: nat)
      requires Wired() && k < |levels| && Valid(k)
      modifies levels[k]
      ensures Valid(k) && Value(k) == Counted(old(Value(k)), onRead, onWrite, writebacks)
    {
      Unfold(k);
      hide Valid, Value, Objects, LevelArray.Valid, LevelArray.Model;
      levels[k].Count(onRead, onWrite, writebacks);
      Unfold(k);
    }

    method UseAt(k: nat, a: nat, now: nat)
      requires Wired() && k < |levels| && Valid(k)
      modifies levels[k].lines
      ensures Valid(k) && Value(k) == Cached(old(Value(k)).level.Use(a, now), old(Value(k)).below)
    {
      Unfold(k);
      hide Valid, Value, Objects, LevelArray.Valid, LevelArray.Model, Level.Use;
      levels[k].Use(a, now);
      Unfold(k);
    }

    /** The block of a is copied from below into the way at i. */
    method BringAt(k: nat, a: nat, i: nat, ghost way: nat, now: nat)
      requires Wired() && k < |levels| && Valid(k)
      requires levels[k].Valid() && levels[k].Stands(levels[k].p.geo.Index(a), i, way) && way < levels[k].p.ways
      modifies levels[k], levels[k].lines
      ensures Valid(k) && Value(k) == Bring(old(Value(k)).level, old(Value(k)).below, a, way, now)
    {
      Unfold(k);
      hide Valid, Value, Objects, LevelArray.Valid, LevelArray.Model, Level.Place;
      ghost var copy := Fetched(levels[k].Model(), Value(k + 1), a);
      levels[k].Fill(a, i, way, now, copy);
      Unfold(k);
    }

    method Probe(k: nat, a: nat) returns (found: Lookup)
      requires Wired() && k < |levels| && Valid(k)
      ensures found == Value(k).level.Lookup(a)
    {
      Unfold(k);
      hide Valid, Value, Objects, LevelArray.Valid, LevelArray.Model, Level.Lookup;
      found := levels[k].FindBlock(a);
    }

    method MarkDone(k: nat, a: nat)
      requires Wired() && k < |levels| && Valid(k)
      modifies levels[k].lines
      ensures Valid(k) && Value(k) == Cached(old(Value(k)).level.Mark(a, Done(true)), old(Value(k)).below)
    {
      Unfold(k);
      hide Valid, Value, Objects, LevelArray.Valid, LevelArray.Model, Level.Mark;
      var found := levels[k].SetFlag(a, Done(true));
      Unfold(k);
    }

    /** complete_below, complete_read, complete_read_i and complete_write. */
    method CompleteFrom(k: nat, a: nat)
      requires Wired() && k <= |levels| && Valid(k)
      modifies frames[k]
      ensures Valid(k) && Value(k) == Complete(old(Value(k)), a)
      decreases |levels| - k, 1
    {
      if k == |levels| { return; }
      Unfold(k);
      hide Valid, Value, Objects, Level.Mark;
      MarkDone(k, a);
      CompleteBelow(k, a);
    }

    // ---- what the level below is asked to do ----

    method ReadBelow(k: nat, a: nat, now: nat) returns (t: Answer)
      requires Wired() && k < |levels| && Valid(k)
      modifies frames[k]
      ensures Did(k, t, Over(old(Value(k)), Read(old(Value(k)).below, a, now)))
      decreases |levels| - k, 0
    {
      Unfold(k);
      hide Valid, Value, Objects, LevelArray.Valid, LevelArray.Model, Read;
      t := ReadFrom(k + 1, a, now);
      Unfold(k);
    }

    method WriteBelow(k: nat, a: nat, ghost d: map<nat, int>, now: nat) returns (t: Answer)
      requires Wired() && k < |levels| && Valid(k)
      modifies frames[k]
      ensures Did(k, t, Over(old(Value(k)), Write(old(Value(k)).below, a, d, now, false)))
      decreases |levels| - k, 0
    {
      Unfold(k);
      hide Valid, Value, Objects, LevelArray.Valid, LevelArray.Model, Write;
      t := WriteFrom(k + 1, a, d, now, false);
      Unfold(k);
    }

    /** complete_below of the level under this one. */
    method CompleteBelow(k: nat, a: nat)
      requires Wired() && k < |levels| && Valid(k)
      modifies frames[k]
      ensures Valid(k) && Value(k) == Cached(old(Value(k)).level, Complete(old(Value(k)).below, a))
      decreases |levels| - k, 0
    {
      Unfold(k);
      hide Valid, Value, Objects, LevelArray.Valid, LevelArray.Model, Complete;
      CompleteFrom(k + 1, a);
      Unfold(k);
    }

    /** The answer is the function's, and so is the state unless the simulator would have stopped. */
    ghost predicate Did(k: nat, t: Answer, r: (Memory, Answer))
      requires Wired() && k <= |levels|
      reads frames[k]
    {
      Valid(k) && t == r.1 && (!t.Abort? ==> Value(k) == r.0)
    }

    // ---- reads ----

    method ReadFrom(k: nat, a: nat, now: nat) returns (t: Answer)
      requires Wired() && k <= |levels| && Valid(k)
      modifies frames[k]
      ensures Did(k, t, Read(old(Value(k)), a, now))
      decreases |levels| - k, 6
    {
      if k == |levels| { return Stall(dram.readLatency); }
      t := ReadLevel(k, a, now);
    }

    method ReadLevel(k: nat, a: nat, now: nat) returns (t: Answer)
      requires Wired() && k < |levels| && Valid(k)
      modifies frames[k]
      ensures Did(k, t, Read(old(Value(k)), a, now))
      decreases |levels| - k, 5
    {
      Unfold(k);
      hide Valid, Value, Objects, Level.Use, Level.Lookup, Evict;
      var found := Probe(k, a);
      match found {
        case Busy => t := Abort(InFlightHit);
        case Hit =>
          UseAt(k, a, now);
          CountAt(k, Counts(1, 0), Counts(0, 0), 0);
          t := Stall(levels[k].p.readLatency);
        case Full => t := Hazard;
        case Free => t := ReadMiss(k, a, now);
      }
    }

    method ReadMiss(k: nat, a: nat, now: nat) returns (t: Answer)
      requires Wired() && k < |levels| && Valid(k) && Value(k).level.Lookup(a).Free?
      modifies frames[k]
      ensures Did(k, t, Read(old(Value(k)), a, now))
      decreases |levels| - k, 4
    {
      Unfold(k);
      ReadMisses(Value(k).level, Value(k).below, a, now);
      hide Valid, Value, Objects, Level.Lookup, Evict, Read;
      var below := ReadBelow(k, a, now);
      if !below.Stall? { return below; }
      t := EvictAt(k, a, now);
      if !t.Stall? { return; }
      CountAt(k, Counts(0, 1), Counts(0, 0), 0);
      t := Stall(levels[k].p.readLatency + below.n + t.n);
    }

    // ---- evictions ----

    method FreeAt(k: nat, a: nat) returns (i: nat, ghost way: nat, free: bool)
      requires Wired() && k < |levels| && Valid(k)
      ensures way == FirstInvalid(Value(k).level.Ways(a)) && levels[k].Stands(levels[k].p.geo.Index(a), i, way)
      ensures free <==> way < Value(k).level.p.ways
    {
      Unfold(k);
      hide Valid, Value, Objects, LevelArray.Model;
      i, way := levels[k].FreeWay(a);
      levels[k].Position(levels[k].p.geo.Index(a), i, way);
      free := i < levels[k].Limit();
    }

    method VictimAt(k: nat, a: nat) returns (i: nat, ghost way: nat, found: bool, line: Block)
      requires Wired() && k < |levels| && Valid(k)
      ensures way == Victim(Value(k).level.Ways(a)) && levels[k].Stands(levels[k].p.geo.Index(a), i, way)
      ensures found <==> way < Value(k).level.p.ways
      ensures found ==> line == Value(k).level.Ways(a)[way]
    {
      Unfold(k);
      hide Valid, Value, Objects;
      var l := levels[k];
      i, way := l.PickVictim(a);
      l.Position(l.p.geo.Index(a), i, way);
      found := i < l.Limit();
      line := EMPTY_BLOCK;
      if found { line := l.LineOf(l.p.geo.Index(a), i).Block(); }
    }

    method EvictAt(k: nat, a: nat, now: nat) returns (t: Answer)
      requires Wired() && k < |levels| && Valid(k)
      modifies frames[k]
      ensures Did(k, t, Evict(old(Value(k)).level, old(Value(k)).below, a, now))
      decreases |levels| - k, 3
    {
      Unfold(k);
      hide Valid, Value, Objects, Level.Lookup, Bring, Write, Complete, LevelArray.Valid;
      var found := Probe(k, a);
      match found {
        case Hit => t := Abort(AlreadyPresent);
        case Busy => t := Abort(InFlightHit);
        case Full => t := Abort(NoSpace);
        case Free =>
          var i, way, free := FreeAt(k, a);
          if free {
            BringAt(k, a, i, way, now);
            t := Stall(0);
          } else {
            t := ReplaceAt(k, a, now);
          }
      }
    }

    method ReplaceAt(k: nat, a: nat, now: nat) returns (t: Answer)
      requires Wired() && k < |levels| && Valid(k) && Value(k).level.Lookup(a).Free?
      requires FirstInvalid(Value(k).level.Ways(a)) == Value(k).level.p.ways
      modifies frames[k]
      ensures Did(k, t, Evict(old(Value(k)).level, old(Value(k)).below, a, now))
      decreases |levels| - k, 2
    {
      Unfold(k);
      hide Valid, Value, Objects, Level.Lookup, Bring, Write, Complete, LevelArray.Valid, Victim, FirstInvalid;
      var i, way, found, line := VictimAt(k, a);
      if !found {
        t := Abort(NoSpace);
      } else if levels[k].p.writeBack && line.dirty {
        t := WriteDownAt(k, a, i, way, line.addr, now);
      } else {
        BringAt(k, a, i, way, now);
        t := Stall(0);
      }
    }

    /** A dirty victim is counted, written down and completed there, and replaced. */
    method WriteDownAt(k: nat, a: nat, i: nat, ghost way: nat, v: nat, now: nat) returns (t: Answer)
      requires Wired() && k < |levels| && Valid(k)
      requires levels[k].Stands(levels[k].p.geo.Index(a), i, way) && way < Value(k).level.p.ways
      modifies frames[k]
      ensures
        var m := old(Value(k));
        var w := Write(m.below, v, Contents(m.level, v), now, false);
        Did(k, t, if w.1.Abort? then Over(m, w)
            else (Bring(CountWriteback(m.level, m.below), Complete(w.0, v), a, way, now), w.1))
      decreases |levels| - k, 1
    {
      Unfold(k);
      CountsWriteback(Value(k), levels[k].p.level == 2 && k + 1 == |levels|);
      hide Valid, Value, Objects, Bring, Write, Complete, Counted, CountWriteback, Contents;
      ghost var d := Contents(Value(k).level, v);
      CountAt(k, Counts(0, 0), Counts(0, 0), if levels[k].p.level == 2 && k + 1 == |levels| then 0 else 1);
      t := WriteBelow(k, v, d, now);
      if t.Abort? { return; }
      CompleteBelow(k, v);
      Unfold(k);
      BringAt(k, a, i, way, now);
    }

    // ---- writes ----

    method WriteFrom(k: nat, a: nat, ghost d: map<nat, int>, now: nat, again: bool) returns (t: Answer)
      requires Wired() && k <= |levels| && Valid(k)
      modifies frames[k]
      ensures Did(k, t, Write(old(Value(k)), a, d, now, again))
      decreases |levels| - k, if again then 8 else 12
    {
      if k == |levels| {
        dram.cells := dram.cells + d;
        return Stall(dram.writeLatency);
      }
      t := WriteLevel(k, a, d, now, again);
    }

    method WriteLevel(k: nat, a: nat, ghost d: map<nat, int>, now: nat, again: bool) returns (t: Answer)
      requires Wired() && k < |levels| && Valid(k)
      modifies frames[k]
      ensures Did(k, t, Write(old(Value(k)), a, d, now, again))
      decreases |levels| - k, if again then 7 else 11
    {
      Unfold(k);
      hide Valid, Value, Objects, Level.Lookup, Level.Store, Read, Complete;
      var found := Probe(k, a);
      var l := levels[k];
      if found.Busy? {
        t := Abort(InFlightHit);
      } else if found.Hit? {
        t := WriteHit(k, a, d, now, again);
      } else if !l.p.allocate {
        t := WriteBelow(k, a, d, now);
        if t.Stall? { CountAt(k, Counts(0, 0), Counts(0, 1), 0); }
      } else if found.Full? {
        t := Hazard;
      } else if again {
        t := Abort(SecondMiss);
      } else {
        t := WriteAllocate(k, a, d, now);
      }
    }

    method WriteHit(k: nat, a: nat, ghost d: map<nat, int>, now: nat, again: bool) returns (t: Answer)
      requires Wired() && k < |levels| && Valid(k) && Value(k).level.Lookup(a).Hit?
      modifies frames[k]
      ensures Did(k, t, Write(old(Value(k)), a, d, now, again))
      decreases |levels| - k, 3
    {
      Unfold(k);
      WriteHits(Value(k).level, Value(k).below, a, d, now, again);
      hide Valid, Value, Objects, Level.Lookup, Level.Store, Write;
      if levels[k].p.writeBack {
        t := KeepAt(k, a, d, now, 0);
      } else {
        t := WriteBelow(k, a, d, now);
        if t.Stall? { t := KeepAt(k, a, d, now, t.n); }
      }
    }

    /** The level's own part of a write that hits. */
    method KeepAt(k: nat, a: nat, ghost d: map<nat, int>, now: nat, below: nat) returns (t: Answer)
      requires Wired() && k < |levels| && Valid(k)
      modifies levels[k], levels[k].lines
      ensures t == Stall(old(Value(k)).level.p.writeLatency + below) && Valid(k)
      ensures Value(k) == CountWrite(Cached(old(Value(k)).level.Store(a, d, now), old(Value(k)).below), 1, 0)
    {
      Unfold(k);
      hide Valid, Value, Objects, Level.Store, LevelArray.Valid, LevelArray.Model;
      levels[k].Store(a, d, now);
      levels[k].Count(Counts(0, 0), Counts(1, 0), 0);
      Unfold(k);
      t := Stall(levels[k].p.writeLatency + below);
    }

    method WriteAllocate(k: nat, a: nat, ghost d: map<nat, int>, now: nat) returns (t: Answer)
      requires Wired() && k < |levels| && Valid(k) && Value(k).level.Lookup(a).Free? && Value(k).level.p.allocate
      modifies frames[k]
      ensures Did(k, t, Write(old(Value(k)), a, d, now, false))
      decreases |levels| - k, 10
    {
      Unfold(k);
      AllocatingWrite(Value(k), a, d, now);
      hide Valid, Value, Objects, Level.Lookup, Read, Write, Complete;
      var read := ReadFrom(k, a, now);
      if !read.Stall? { return read; }
      CompleteFrom(k, a);
      t := WriteAgain(k, a, d, now, read.n);
    }

    /** The second try, which is counted as a miss of the first. */
    method WriteAgain(k: nat, a: nat, ghost d: map<nat, int>, now: nat, read: nat) returns (t: Answer)
      requires Wired() && k < |levels| && Valid(k)
      modifies frames[k]
      ensures Did(k, t, Retried(Write(old(Value(k)), a, d, now, true), read))
      decreases |levels| - k, 9
    {
      Unfold(k);
      hide Valid, Value, Objects, Write;
      t := WriteFrom(k, a, d, now, true);
      if t.Hazard? { return Abort(NoSpace); }
      if t.Abort? { return; }
      CountAt(k, Counts(0, -1), Counts(-1, 1), 0);
      t := Stall(read + t.n);
    }
  }

  lemma CountsWriteback(m: Memory, last: bool)
    requires m.Cached? && (last <==> m.level.p.level == 2 && m.below.Ram?)
    ensures Counted(m, Counts(0, 0), Counts(0, 0), if last then 0 else 1) ==
        Cached(CountWriteback(m.level, m.below), m.below)
  {
  }

  /** What the first try makes of the second. */
  function Retried(r: (Memory, Answer), read: nat): (Memory, Answer)
    requires Shaped(r.0) && r.0.Cached?
  {
    if r.1.Hazard? then (r.0, Abort(NoSpace))
    else if r.1.Abort? then r
    else (CountWrite(CountRead(r.0, 0, -1), -1, 1), Stall(read + r.1.n))
  }

  lemma {:induction false} WriteHits(l: Level, b: Memory, a: nat, d: map<nat, int>, now: nat, again: bool)
    requires l.Shaped() && Shaped(b) && l.Lookup(a).Hit?
    ensures
      var w := Write(b, a, d, now, false);
      Write(Cached(l, b), a, d, now, again) ==
        if l.p.writeBack then (CountWrite(Cached(l.Store(a, d, now), b), 1, 0), Stall(l.p.writeLatency))
        else if !w.1.Stall? then (Cached(l, w.0), w.1)
        else (CountWrite(Cached(l.Store(a, d, now), w.0), 1, 0), Stall(l.p.writeLatency + w.1.n))
  {
    hide Level.Lookup, Level.Store, Read, Complete;
  }

  lemma {:induction false} AllocatingWrite(m: Memory, a: nat, d: map<nat, int>, now: nat)
    requires Shaped(m) && m.Cached? && m.level.Lookup(a).Free? && m.level.p.allocate
    ensures
      var r := Read(m, a, now);
      Write(m, a, d, now, false) ==
        if !r.1.Stall? then r else Retried(Write(Complete(r.0, a), a, d, now, true), r.1.n)
  {
    hide Level.Lookup, Read, Complete;
  }

  /** An answer of the level below, seen from this level. */
  function Over(m: Memory, r: (Memory, Answer)): (Memory, Answer)
    requires m.Cached?
  {
    (Cached(m.level, r.0), r.1)
  }

  function Counted(m: Memory, onRead: Counts, onWrite: Counts, writebacks: nat): Memory
    requires m.Cached?
  {
    var s := m.level.stats;
    m.(level := m.level.(stats := Stats(s.hitR + onRead.hits, s.missR + onRead.misses,
      s.hitW + onWrite.hits, s.missW + onWrite.misses, s.writebacks + writebacks)))
  }
}
