/** The observer registry (observer/observer.go): Go slices over shared backing arrays, appended to in
    place while workers still read older slices. */
module Registry {
  import Delivery

  type EventName = string

  /** A Go slice that starts at the beginning of its backing array; its capacity is the array's length. */
  datatype Slice<O> = Slice(backing: array<O>, len: nat)

  ghost function Backings<O>(workers: map<EventName, Slice<O>>, held: set<Slice<O>>): set<array<O>> {
    (set e | e in workers :: workers[e].backing) + (set h | h in held :: h.backing)
  }

  /** Events do not share arrays, and no slice handed out is longer than the current one on the same array. */
  ghost predicate Sound<O>(workers: map<EventName, Slice<O>>, held: set<Slice<O>>) {
    && (forall e :: e in workers ==> workers[e].len <= workers[e].backing.Length)
    && (forall h :: h in held ==> h.len <= h.backing.Length)
    && (forall e, f :: e in workers && f in workers && workers[e].backing == workers[f].backing ==> e == f)
    && (forall h, e :: h in held && e in workers && h.backing == workers[e].backing ==> h.len <= workers[e].len)
  }

  lemma SoundAfterAppend<O>(workers: map<EventName, Slice<O>>, held: set<Slice<O>>, e: EventName, t: Slice<O>)
    requires Sound(workers, held) && e in workers
    requires t.len == workers[e].len + 1 <= t.backing.Length
    requires t.backing == workers[e].backing || t.backing !in Backings(workers, held)
    ensures Sound(workers[e := t], held)
  {
  }

  lemma SoundAfterPresent<O>(workers: map<EventName, Slice<O>>, held: set<Slice<O>>, e: EventName, t: Slice<O>)
    requires Sound(workers, held) && e !in workers && t.len == 0 && t.backing !in Backings(workers, held)
    ensures Sound(workers[e := t], held)
  {
  }

  lemma SoundFacts<O>(workers: map<EventName, Slice<O>>, held: set<Slice<O>>, e: EventName)
    requires Sound(workers, held) && e in workers
    ensures workers[e].len <= workers[e].backing.Length
    ensures forall f :: f in workers && f != e ==> workers[f].backing != workers[e].backing
    ensures forall h :: h in held && h.backing == workers[e].backing ==> h.len <= workers[e].len
  {
  }

  lemma RegisteredUpdate<O>(before: map<EventName, seq<O>>, after: map<EventName, seq<O>>, e: EventName, os: seq<O>)
    requires after.Keys == before.Keys + {e}
    requires forall f :: Delivery.Registered(after, f) == if f == e then os else Delivery.Registered(before, f)
    ensures after == before[e := os]
  {
    assert forall f :: f in after ==> Delivery.Registered(after, f) == after[f];
    assert forall f :: f in before ==> Delivery.Registered(before, f) == before[f];
  }

  class Subject<O> {
    var workers: map<EventName, Slice<O>>
    ghost var held: set<Slice<O>>  // every slice a worker has read

    ghost predicate Valid()
      reads this
    {
      Sound(workers, held)
    }

    /** The observers registered for an event. */
    ghost function Registered(e: EventName): (os: seq<O>)
      requires Valid()
      reads this, Backings(workers, held)
    {
      if e in workers then workers[e].backing[..workers[e].len] else []
    }

    /** What a worker sees in a slice it read earlier. */
    ghost function Seen(h: Slice<O>): (os: seq<O>)
      requires Valid() && h in held
      reads this, Backings(workers, held)
    {
      h.backing[..h.len]
    }

    /** The registry as the fan-out protocol sees it. */
    ghost function Names(): (r: map<EventName, seq<O>>)
      requires Valid()
      reads this, Backings(workers, held)
      ensures r.Keys == workers.Keys && forall e :: Delivery.Registered(r, e) == Registered(e)
    {
      map e | e in workers :: workers[e].backing[..workers[e].len]
    }

    constructor ()
      ensures Valid() && held == {} && forall e :: Registered(e) == []
    {
      workers := map[];
      held := {};
    }

    /** Lines 46-48: a worker reads the slice for an event. */
    method Lookup(e: EventName) returns (handlers: Slice<O>, found: bool)
      requires Valid()
      modifies this`held
      ensures Valid() && workers == old(workers)
      ensures held == old(held) + if found then {handlers} else {}
      ensures found <==> e in workers
      ensures found ==> Seen(handlers) == Registered(e)
      ensures Delivery.Registered(Names(), e) == if found then Seen(handlers) else []
    {
      if e in workers {
        handlers, found := workers[e], true;
        held := held + {handlers};
      } else {
        var none := new O[0];
        handlers, found := Slice(none, 0), false;
      }
    }

    /** Go's append: in place while there is capacity, otherwise into a new array with `room` to spare. */
    static method Append(s: Slice<O>, observer: O, room: nat) returns (t: Slice<O>)
      requires s.len <= s.backing.Length
      modifies s.backing
      ensures t.len == s.len + 1 <= t.backing.Length
      ensures t.backing[..t.len] == old(s.backing[..s.len]) + [observer]
      ensures forall n: nat :: n <= s.len ==> s.backing[..n] == old(s.backing[..n])
      ensures if s.len < s.backing.Length then t.backing == s.backing else fresh(t.backing)
    {
      if s.len < s.backing.Length {
        s.backing[s.len] := observer;
        t := Slice(s.backing, s.len + 1);
      } else {
        var grown := new O[s.len + 1 + room](_ => observer);
        for i := 0 to s.len
          invariant forall k :: 0 <= k < i ==> grown[k] == s.backing[k]
          invariant s.len < grown.Length && grown[s.len] == observer
          invariant s.backing[..] == old(s.backing[..])
        {
          grown[i] := s.backing[i];
        }
        t := Slice(grown, s.len + 1);
      }
    }

    /** Lines 88-90: an event registered for the first time gets an empty slice. */
    method Present(e: EventName)
      requires Valid()
      modifies this`workers
      ensures Valid() && held == old(held) && e in workers && workers.Keys == old(workers.Keys) + {e}
      ensures forall f :: Registered(f) == old(Registered(f))
      ensures fresh(Backings(workers, held) - old(Backings(workers, held)))
    {
      hide Sound;
      if e !in workers {
        var none := new O[0];
        SoundAfterPresent(workers, held, e, Slice(none, 0));
        workers := workers[e := Slice(none, 0)];
      }
    }

    /** Line 92. */
    method Extend(e: EventName, observer: O, room: nat)
      requires Valid() && e in workers
      modifies this`workers, workers[e].backing
      ensures Valid() && held == old(held) && workers.Keys == old(workers.Keys)
      ensures Registered(e) == old(Registered(e)) + [observer]
      ensures forall f :: f != e ==> Registered(f) == old(Registered(f))
      ensures forall h :: h in held ==> Seen(h) == old(Seen(h))
    {
      hide Sound;
      SoundFacts(workers, held, e);
      var t := Append(workers[e], observer, room);
      SoundAfterAppend(workers, held, e, t);
      workers := workers[e := t];
    }

    /** Register adds one observer to one event, and no slice a worker holds changes, although the new
        element may be written into the very array the worker is reading. */
    method Register(e: EventName, observer: O, room: nat)
      requires Valid()
      modifies this`workers, Backings(workers, held)
      ensures Valid() && held == old(held)
      ensures forall f :: Registered(f) == if f == e then old(Registered(f)) + [observer] else old(Registered(f))
      ensures Names() == old(Names())[e := Delivery.Registered(old(Names()), e) + [observer]]
      ensures forall h :: h in held ==> Seen(h) == old(Seen(h))
    {
      hide Sound, Delivery.Registered, Names;
      ghost var before := Names();
      Present(e);
      Extend(e, observer, room);
      RegisteredUpdate(before, Names(), e, Delivery.Registered(before, e) + [observer]);
    }
  }
}
