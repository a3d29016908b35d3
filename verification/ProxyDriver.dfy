/** The proxy's operations as it performs them, on its channel record and the engine. */
module ProxyDriver {
  import opened Callbacks
  import opened ChannelState
  import opened Driver
  import opened Memory
  import opened Options
  import opened Proxy
  import opened Requests
  import opened Runs
  import opened Splitting

  class ProxyChannel {
    const channel: Channel
    const toDevice: bool
    const cached: bool
    const interfacePhys: nat
    var length: nat
    var cmp: nat
    var cookie: int
    var handle: nat
    var status: Status

    constructor (channel: Channel, toDevice: bool, cached: bool, interfacePhys: nat, length: nat, status: Status)
      ensures this.channel == channel && this.toDevice == toDevice && this.cached == cached
      ensures this.interfacePhys == interfacePhys && this.length == length && this.status == status && cmp == 0
    {
      this.channel, this.toDevice, this.cached := channel, toDevice, cached;
      this.interfacePhys, this.length, this.status := interfacePhys, length, status;
      cmp, cookie, handle := 0, 0, 0;
    }

    /** The tasklet unlinks a completed descriptor: the engine's first move towards a callback,
        which completes nothing yet. What it returns says whether a callback is due. */
    method Unlink(ghost z: Pair) returns (desc: Desc)
      requires channel.Valid() && channel.Now() == z.y.ch && cmp == z.p.cmp
      requires AtLoopHead(z.y) && CanTake(z.y.ch) && !z.y.ch.bug
      modifies channel
      ensures channel.Valid()
      ensures
        var w := NextPair(z, Engine(StepTake));
        && channel.Now() == w.y.ch && cmp == w.p.cmp
        && w.y.held == [desc] && (desc.callback <==> w.y.due == [desc])
    {
      NotifiedOne(channel.done[0]);
      desc := channel.TakeDone();
    }

    /** The callback of every proxy descriptor: the engine's move that completes, for exactly one
        descriptor that was due, and takes no lock. */
    method SyncCallback(ghost z: Pair)
      requires channel.Valid() && channel.Now() == z.y.ch && cmp == z.p.cmp
      requires z.y.due != [] && !z.y.ch.bug
      modifies this`cmp
      ensures
        var w := NextPair(z, Engine(StepCall));
        channel.Now() == w.y.ch && cmp == w.p.cmp && w.y.due == []
    {
      cmp := cmp + 1;
    }

    /** `wild`: preparing an empty transfer has led the driver astray. */
    method StartTransfer(memory: bool, after: nat, ok: bool) returns (result: int, wild: bool)
      requires channel.Valid() && FreeClean(channel.Now())
      modifies this`cmp, channel, channel.hw
      ensures channel.Valid()
      ensures wild <==> memory && length == 0
      ensures !memory || wild ==> channel.Now() == old(channel.Now()) && cmp == old(cmp) && result == -16
      ensures memory && !wild ==>
        Started(channel.Now(), cmp, result)
        == StartRequest(old(channel.Now()), old(cmp), handle, length, toDevice, after, ok)
    {
      var direction := if toDevice then MemToDev else DevToMem;
      var desc: Option<Desc>;
      desc, wild := channel.PrepSlaveSg([Range(handle, length)], direction, None, memory);
      if wild || desc == None {
        return -EBUSY, wild;
      }
      cmp := 0;
      var outcome := channel.TxSubmit(desc.value.(callback := true), after);
      channel.IssuePending(ok);
      return CookieOf(outcome), false;
    }

    /** `mapped`: the bus address of a cached buffer; one that is not cached is the first member of
        the shared interface. The wait itself happens between this method and FinishWait. */
    method Transfer(mapped: nat, memory: bool, after: nat, ok: bool) returns (waiting: bool, wild: bool)
      requires channel.Valid() && FreeClean(channel.Now())
      modifies this, channel, channel.hw
      ensures channel.Valid() && length == old(length)
      ensures handle == if cached then mapped else interfacePhys
      ensures wild <==> memory && length == 0
      ensures !memory || wild ==> channel.Now() == old(channel.Now()) && cmp == old(cmp) && cookie == -16
      ensures memory && !wild ==>
        Started(channel.Now(), cmp, cookie)
        == StartRequest(old(channel.Now()), old(cmp), handle, length, toDevice, after, ok)
      ensures waiting <==> cookie >= 0
      ensures status == if waiting then ProxyBusy else old(status)
    {
      handle := if cached then mapped else interfacePhys;
      cookie, wild := StartTransfer(memory, after, ok);
      if cookie < 0 {
        return false, wild;
      }
      status := ProxyBusy;
      return true, wild;
    }

    /** The rest of wait_for_transfer, once the completion is there or time is up: the client's
        move of the pair `z`. `wild`: the status query has led the driver astray. */
    method FinishWait(ghost z: Pair) returns (wild: bool)
      requires channel.Valid() && cookie >= 0
      requires z.y.ch == channel.Now() && z.p.phase.Waiting?
      requires z.p.cmp == cmp && z.p.cookie == cookie && z.p.status == status
      modifies this`cmp, this`status
      ensures
        var w := NextPair(z, if old(cmp) > 0 then Wake else Timeout);
        cmp == w.p.cmp && status == w.p.status && (wild <==> w.p.phase.Strayed?)
    {
      var woken := cmp > 0;
      if woken {
        cmp := cmp - 1;
      }
      var complete, _, stray := channel.TxStatus(cookie, true);
      wild := stray;
      if wild {
        return;
      }
      if !woken {
        status := TimedOut;
      } else if !complete {
        status := Error;
      } else {
        status := NoError;
      }
    }
  }
}
