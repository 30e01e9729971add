/** The widget's refreshes: one read in flight, one refresh queued behind it, and promises that settle only on fresh reads. */
module Widget {
  import opened Wrappers

  type Id = nat

  /** A promise settles when a read is over, or because the widget is disposed. */
  datatype Cause = ByRead(read: Id) | ByDispose

  /**
   * Who will settle a promise: the read in flight that its refresh began, the read in flight begun
   * for it, the read that will follow the one in flight, or a settling due after its read.
   */
  datatype Place = Direct | Serving | Queued | Due(read: Id) | Nobody

  /** A refresh promise: the time of the last call it was returned from, what settled it, and who will. */
  datatype Promise = Promise(called: nat, settled: Option<Cause>, place: Place)

  function Lookup<V>(m: map<Id, V>, id: Id): Option<V> {
    if id in m then Some(m[id]) else None
  }

  /** A settled promise was settled by a read begun at or after its last call, or by disposal. */
  predicate Honest(p: Promise, begun: map<Id, nat>, disposed: bool) {
    match p.settled
    case None => p.place != Nobody
    case Some(ByRead(r)) => r in begun && begun[r] >= p.called && p.place == Nobody
    case Some(ByDispose) => disposed && p.place != Direct && p.place != Queued
  }

  /** Whoever will settle a promise does so after a read that begins no earlier than its last call. */
  predicate Fresh(p: Promise, begun: map<Id, nat>, drain: Option<Id>, disposed: bool) {
    match p.place
    case Direct => drain.Some? && drain.value in begun && p.called <= begun[drain.value]
    case Serving => drain.Some? && drain.value in begun && p.called <= begun[drain.value]
    case Queued => drain.Some? && !disposed
    case Due(r) => r in begun && p.called <= begun[r]
    case Nobody => true
  }

  predicate Sound(p: Promise, begun: map<Id, nat>, drain: Option<Id>, disposed: bool, outstanding: bool, clock: nat) {
    && p.called <= clock && Honest(p, begun, disposed) && Fresh(p, begun, drain, disposed)
    && (outstanding <==> p.settled == None && p.place != Direct)
    && (disposed ==> !outstanding)
  }

  /** A promise once the widget is disposed: settled when it was outstanding, and no longer queued. */
  function WhenDisposed(p: Promise, outstanding: bool): Promise {
    Promise(p.called, if outstanding then Some(ByDispose) else p.settled, if p.place == Queued then Nobody else p.place)
  }

  lemma DisposedIsSound(p: Promise, begun: map<Id, nat>, drain: Option<Id>, outstanding: bool, clock: nat)
    requires Sound(p, begun, drain, false, outstanding, clock)
    ensures Sound(WhenDisposed(p, outstanding), begun, drain, true, false, clock)
  {
  }

  class WidgetController {
    var disposed: bool
    /** The read in flight. */
    var drain: Option<Id>
    /** The promise of the refresh that began the read in flight. */
    var direct: Option<Id>
    /** The queued refresh that the read in flight was begun for. */
    var serving: Option<Id>
    /** The refresh queued behind the read in flight. */
    var queued: Option<Id>
    var outstanding: set<Id>
    /** Refreshes whose read is over and whose settling is due. */
    var due: map<Id, Id>
    var nextRead: Id
    var nextPromise: Id

    ghost var clock: nat
    /** When each read began. */
    ghost var begun: map<Id, nat>
    ghost var promises: map<Id, Promise>

    constructor ()
      ensures Valid() && !disposed && drain == None && promises == map[]
    {
      disposed, drain, direct, serving, queued, outstanding, due := false, None, None, None, None, {}, map[];
      clock, begun, promises, nextRead, nextPromise := 0, map[], map[], 0, 0;
    }

    ghost predicate In(id: Id, place: Place)
      reads this
    {
      id in promises && promises[id].place == place
    }

    ghost predicate SoundAt(id: Id)
      reads this
    {
      && (direct == Some(id) <==> In(id, Direct))
      && (serving == Some(id) <==> In(id, Serving))
      && (queued == Some(id) <==> In(id, Queued))
      && (id in due ==> In(id, Due(due[id])))
      && (id in promises && promises[id].place.Due? ==> id in due)
      && (id in promises ==> id < nextPromise && Sound(promises[id], begun, drain, disposed, id in outstanding, clock))
      && (id in outstanding ==> id in promises)
    }

    ghost predicate Valid()
      reads this
    {
      && (forall id :: SoundAt(id))
      && (forall r :: r in begun ==> r < nextRead)
      && (drain.Some? ==> drain.value in begun)
    }

    /** Begins a read now. */
    method BeginRead() returns (r: Id)
      modifies this`nextRead, this`begun, this`drain, this`clock
      ensures r == old(nextRead) && nextRead == r + 1 && clock == old(clock) + 1
      ensures begun == old(begun)[r := clock] && drain == Some(r)
    {
      r := nextRead;
      nextRead := nextRead + 1;
      clock := clock + 1;
      begun := begun[r := clock];
      drain := Some(r);
    }

    /** A refresh begins a read, or joins the refresh queued behind the read in flight; on a disposed widget it is settled at once. */
    method Refresh() returns (id: Id)
      requires Valid()
      modifies this
      ensures Valid() && disposed == old(disposed) && id in promises && promises[id].called == clock
      ensures disposed ==> promises[id].settled == Some(ByDispose) && drain == old(drain) && queued == old(queued)
      ensures !disposed ==> promises[id].settled == None
      ensures !disposed && old(drain).None? ==> drain.Some? && drain.value in begun && begun[drain.value] == clock && direct == Some(id) && queued == None
      ensures !disposed && old(drain).Some? ==> drain == old(drain) && begun == old(begun) && queued == Some(id) && (old(queued).Some? ==> queued == old(queued))
    {
      if disposed {
        id := Settled();
      } else if drain.None? {
        id := BeginDirect();
      } else if queued.None? {
        id := Enqueue();
      } else {
        id := queued.value;
        assert SoundAt(id);
        clock := clock + 1;
        promises := promises[id := promises[id].(called := clock)];
        forall other ensures SoundAt(other) {
          assert old(SoundAt(other));
        }
      }
    }

    method Settled() returns (id: Id)
      requires Valid() && disposed
      modifies this`clock, this`nextPromise, this`promises
      ensures Valid() && promises == old(promises)[id := Promise(clock, Some(ByDispose), Nobody)]
    {
      id := nextPromise;
      assert SoundAt(id);
      clock := clock + 1;
      nextPromise := nextPromise + 1;
      promises := promises[id := Promise(clock, Some(ByDispose), Nobody)];
      forall other ensures SoundAt(other) {
        assert old(SoundAt(other));
      }
    }

    method BeginDirect() returns (id: Id)
      requires Valid() && !disposed && drain == None
      modifies this
      ensures Valid() && !disposed && promises == old(promises)[id := Promise(clock, None, Direct)]
      ensures drain.Some? && drain.value in begun && begun[drain.value] == clock && direct == Some(id) && queued == None
    {
      id := nextPromise;
      assert SoundAt(id);
      NothingQueuedWhenIdle();
      var r := BeginRead();
      nextPromise := nextPromise + 1;
      direct := Some(id);
      promises := promises[id := Promise(clock, None, Direct)];
      forall other ensures SoundAt(other) {
        assert old(SoundAt(other));
      }
    }

    lemma NothingQueuedWhenIdle()
      requires Valid() && drain == None
      ensures queued == None
    {
      forall id: Id ensures queued != Some(id) {
        assert SoundAt(id);
      }
    }

    method Enqueue() returns (id: Id)
      requires Valid() && !disposed && drain.Some? && queued == None
      modifies this`clock, this`nextPromise, this`queued, this`outstanding, this`promises
      ensures Valid() && queued == Some(id) && promises == old(promises)[id := Promise(clock, None, Queued)]
    {
      id := nextPromise;
      assert SoundAt(id);
      clock := clock + 1;
      nextPromise := nextPromise + 1;
      queued := Some(id);
      outstanding := outstanding + {id};
      promises := promises[id := Promise(clock, None, Queued)];
      forall other ensures SoundAt(other) {
        assert old(SoundAt(other));
      }
    }

    /** The finally handler of the read in flight: its own promise settles, and a queued refresh gets its read. */
    method ReadEnds()
      requires Valid() && drain.Some?
      modifies this
      ensures Valid() && disposed == old(disposed)
      ensures old(direct).Some? ==> old(direct).value in promises && promises[old(direct).value].settled == Some(ByRead(old(drain).value))
      ensures old(queued).Some? ==> drain.Some? && drain != old(drain) && serving == old(queued) && drain.value in begun && begun[drain.value] > old(clock)
      ensures old(queued).None? ==> drain == None && serving == None && begun == old(begun)
      ensures queued == None && direct == None
    {
      SettleDirect();
      MarkDue();
      Hand();
    }

    method SettleDirect()
      requires Valid() && drain.Some?
      modifies this`direct, this`promises
      ensures Valid() && direct == None
      ensures old(direct).None? ==> promises == old(promises)
      ensures old(direct).Some? ==> old(direct).value in old(promises) && promises == old(promises)[old(direct).value := Promise(old(promises)[old(direct).value].called, Some(ByRead(drain.value)), Nobody)]
    {
      if direct.Some? {
        var id := direct.value;
        assert SoundAt(id);
        promises := promises[id := Promise(promises[id].called, Some(ByRead(drain.value)), Nobody)];
        direct := None;
        forall other ensures SoundAt(other) {
          assert old(SoundAt(other));
        }
      }
    }

    method MarkDue()
      requires Valid() && drain.Some? && direct == None
      modifies this`serving, this`due, this`promises
      ensures Valid() && serving == None && promises.Keys == old(promises).Keys
      ensures forall id :: id in promises ==> promises[id].settled == old(promises)[id].settled
    {
      if serving.Some? {
        var id := serving.value;
        assert SoundAt(id);
        due := due[id := drain.value];
        promises := promises[id := promises[id].(place := Due(drain.value))];
        serving := None;
        forall other ensures SoundAt(other) {
          assert old(SoundAt(other));
        }
      }
    }

    /** The read is over; a queued refresh gets the next one. */
    method Hand()
      requires Valid() && drain.Some? && direct == None && serving == None
      modifies this`drain, this`queued, this`serving, this`nextRead, this`begun, this`clock, this`promises
      ensures Valid() && queued == None && promises.Keys == old(promises).Keys
      ensures forall id :: id in promises ==> promises[id].settled == old(promises)[id].settled
      ensures old(queued).Some? ==> drain.Some? && drain != old(drain) && serving == old(queued) && drain.value in begun && begun[drain.value] > old(clock)
      ensures old(queued).None? ==> drain == None && serving == None && begun == old(begun)
    {
      if queued.Some? {
        var id := queued.value;
        assert SoundAt(id);
        var r := BeginRead();
        serving := queued;
        queued := None;
        promises := promises[id := promises[id].(place := Serving)];
      } else {
        drain := None;
      }
      forall other ensures SoundAt(other) {
        assert old(SoundAt(other));
      }
    }

    /** The settling of a queued refresh after its read; it does nothing when disposal came first. */
    method SettleQueuedRefresh(id: Id)
      requires Valid() && id in due
      modifies this`outstanding, this`promises, this`due
      ensures Valid() && id in promises && id in old(promises) && due == old(due) - {id}
      ensures promises[id].settled == if id in old(outstanding) then Some(ByRead(old(due)[id])) else old(promises)[id].settled
    {
      assert SoundAt(id);
      var r := due[id];
      due := due - {id};
      promises := promises[id := promises[id].(place := Nobody)];
      if id in outstanding {
        outstanding := outstanding - {id};
        promises := promises[id := promises[id].(settled := Some(ByRead(r)))];
      }
      forall other ensures SoundAt(other) {
        assert old(SoundAt(other));
      }
    }

    /** Disposal settles every outstanding refresh and drops the queue; a read in flight still settles its own. */
    method Dispose()
      requires Valid()
      modifies this`disposed, this`outstanding, this`queued, this`promises
      ensures Valid() && disposed && outstanding == {} && queued == None && promises.Keys == old(promises).Keys
      ensures forall id :: id in promises ==> promises[id].settled == if id in old(outstanding) then Some(ByDispose) else old(promises)[id].settled
    {
      if disposed {
        NoneOutstanding();
        return;
      }
      ghost var before := promises;
      ghost var out := outstanding;
      disposed := true;
      promises := map id | id in promises :: WhenDisposed(promises[id], id in outstanding);
      outstanding := {};
      queued := None;
      hide Sound;
      forall other ensures SoundAt(other) {
        assert old(SoundAt(other));
        if other in before {
          DisposedIsSound(before[other], begun, drain, other in out, clock);
        }
      }
    }

    lemma NoneOutstanding()
      requires Valid() && disposed
      ensures outstanding == {} && queued == None
    {
      forall id: Id ensures id !in outstanding && queued != Some(id) {
        assert SoundAt(id);
      }
    }

    /** A settled refresh saw a read begun at or after its last call, or disposal; an unsettled one is attended to. */
    lemma RefreshesAreFresh(id: Id)
      requires Valid() && id in promises
      ensures match promises[id].settled
              case None => direct == Some(id) || serving == Some(id) || queued == Some(id) || id in due
              case Some(ByRead(r)) => r in begun && begun[r] >= promises[id].called
              case Some(ByDispose) => disposed
    {
      assert SoundAt(id);
    }
  }
}
