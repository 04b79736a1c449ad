/**
 virtio_disk_rw as a whole (kernel/virtio_disk.c:215-292): from the request to the return,
 with any number of other requests, device steps and interrupts in between.
 */
module Transfers {
  import opened Virtio

  /** The request has been carried out. */
  predicate Done(c: Chain) {
    c.phase == Used || c.phase == Handled
  }

  /** `moved` is what the request is to move: a write's buffer, or a read's sector, when it was made. */
  ghost predicate Carried(c: Chain, moved: Data, data: map<nat, Data>, disk: map<nat, Data>) {
    if c.req.write
    then Contents(data, c.buf) == moved && (Done(c) ==> Contents(disk, c.req.sector) == moved)
    else Contents(disk, c.req.sector) == moved && (Done(c) ==> Contents(data, c.buf) == moved)
  }

  /** Requests that never shared their sector with another one in flight move what they should. */
  ghost predicate CarriedAll(chains: Chains, moved: map<nat, Data>, shared: set<nat>,
                             data: map<nat, Data>, disk: map<nat, Data>)
  {
    && (forall h :: h in chains ==> h in moved)
    && (forall h :: h in chains && h !in shared ==> Carried(chains[h], moved[h], data, disk))
    && (forall g, h :: g in chains && h in chains && g != h && chains[g].req.sector == chains[h].req.sector ==>
          h in shared)
    && (forall g, h :: g in chains && h in chains && g != h ==> chains[g].buf != chains[h].buf)
  }

  ghost function Sharing(chains: Chains, h: nat, c: Chain): (r: set<nat>) {
    var others := set g | g in chains && chains[g].req.sector == c.req.sector;
    if others == {} then {} else others + {h}
  }

  lemma {:induction false} CarriedPhase(chains: Chains, moved: map<nat, Data>, shared: set<nat>, data: map<nat, Data>,
                                        disk: map<nat, Data>, h: nat, phase: Phase)
    requires CarriedAll(chains, moved, shared, data, disk) && h in chains
    requires Done(chains[h].(phase := phase)) ==> Done(chains[h])
    ensures CarriedAll(SetPhase(chains, h, phase), moved, shared, data, disk)
  {
  }

  lemma {:induction false} CarriedAdd(chains: Chains, moved: map<nat, Data>, shared: set<nat>, data: map<nat, Data>,
                                      disk: map<nat, Data>, h: nat, c: Chain)
    requires CarriedAll(chains, moved, shared, data, disk) && h !in chains && c.phase == Avail
    requires forall g :: g in chains ==> chains[g].buf != c.buf
    ensures var m := if c.req.write then Contents(data, c.buf) else Contents(disk, c.req.sector);
            CarriedAll(chains[h := c], moved[h := m], shared - {h} + Sharing(chains, h, c), data, disk)
  {
    forall g | g in chains && chains[g].req.sector == c.req.sector
      ensures g in Sharing(chains, h, c) && h in Sharing(chains, h, c)
    {
      assert g in (set x | x in chains && chains[x].req.sector == c.req.sector);
    }
  }

  lemma {:induction false} CarriedRemove(chains: Chains, moved: map<nat, Data>, shared: set<nat>, data: map<nat, Data>,
                                         disk: map<nat, Data>, h: nat)
    requires CarriedAll(chains, moved, shared, data, disk) && h in chains
    ensures CarriedAll(chains - {h}, moved, shared, data, disk)
  {
  }

  lemma {:induction false} CarriedStore(chains: Chains, moved: map<nat, Data>, shared: set<nat>, data: map<nat, Data>,
                                        disk: map<nat, Data>, b: nat, d: Data)
    requires CarriedAll(chains, moved, shared, data, disk) && forall g :: g in chains ==> chains[g].buf != b
    ensures CarriedAll(chains, moved, shared, data[b := d], disk)
  {
  }

  /** The device carries out request h. */
  lemma {:induction false} CarriedDone(chains: Chains, moved: map<nat, Data>, shared: set<nat>, data: map<nat, Data>,
                                       disk: map<nat, Data>, h: nat, data': map<nat, Data>, disk': map<nat, Data>)
    requires CarriedAll(chains, moved, shared, data, disk) && h in chains && !Done(chains[h])
    requires var c := chains[h];
             if c.req.write then data' == data && disk' == disk[c.req.sector := Contents(data, c.buf)]
             else disk' == disk && data' == data[c.buf := Contents(disk, c.req.sector)]
    ensures CarriedAll(SetPhase(chains, h, Used), moved, shared, data', disk')
  {
  }

  /** The driver and its device, and what every request in flight is to move. */
  class Driver {
    const disk: Disk
    ghost var moved: map<nat, Data>
    ghost var shared: set<nat>

    ghost predicate Valid()
      reads this, disk
    {
      disk.Valid() && CarriedAll(disk.chains, moved, shared, disk.data, disk.disk)
    }

    constructor ()
      ensures Valid() && fresh(disk) && disk.chains == map[]
    {
      disk := new Disk();
      moved, shared := map[], {};
    }

    lemma {:induction false} NotInUse(b: nat)
      requires disk.Valid() && b !in disk.using
      ensures forall g :: g in disk.chains ==> disk.chains[g].buf != b
    {
      hide DescsOk, ChainsOk, Lists, Ring;
    }

    /** Make the request; with fewer than three descriptors free the caller sleeps and tries again. */
    method Begin(b: nat, blockno: nat, write: bool) returns (ok: bool, head: nat)
      requires Valid() && b !in disk.using && blockno < 0x1_0000_0000
      modifies this, disk
      ensures Valid() && disk.data == old(disk.data) && disk.disk == old(disk.disk)
      ensures ok <==> |old(disk.chains)| < 2
      ensures !ok ==> disk.chains == old(disk.chains) && moved == old(moved) && shared == old(shared)
      ensures ok ==>
                && head !in old(disk.chains) && head in disk.chains
                && disk.chains == old(disk.chains)[head := disk.chains[head]] && disk.chains[head].buf == b
                && disk.chains[head].req == Request(write, blockno * 2 % 0x1_0000_0000)
                && moved == old(moved)[head := if write then Contents(disk.data, b)
                                               else Contents(disk.disk, blockno * 2 % 0x1_0000_0000)]
                && shared == old(shared) - {head} + Sharing(old(disk.chains), head, disk.chains[head])
    {
      hide Disk.Valid, CarriedAll;
      NotInUse(b);
      ghost var chains := disk.chains;
      ok, head := disk.Submit(b, blockno, write);
      disk.InFlight();
      if ok {
        ghost var c := disk.chains[head];
        CarriedAdd(chains, moved, shared, disk.data, disk.disk, head, c);
        moved := moved[head := if write then Contents(disk.data, b) else Contents(disk.disk, c.req.sector)];
        shared := shared - {head} + Sharing(chains, head, c);
      }
    }

    /** The kernel writes a buffer that is not in flight. */
    method Store(b: nat, d: Data)
      requires Valid() && b !in disk.using
      modifies disk`data
      ensures Valid() && disk.data == old(disk.data)[b := d]
    {
      hide Disk.Valid, CarriedAll;
      NotInUse(b);
      CarriedStore(disk.chains, moved, shared, disk.data, disk.disk, b, d);
      disk.data := disk.data[b := d];
    }

    /** The device takes a request. */
    method Fetch() returns (h: nat)
      requires Valid() && disk.fetchIdx != disk.availIdx
      modifies disk`fetchIdx, disk`chains, disk`pending
      ensures Valid() && h in old(disk.chains) && disk.chains == SetPhase(old(disk.chains), h, Device)
    {
      hide Disk.Valid, CarriedAll;
      ghost var chains := disk.chains;
      h := disk.Fetch();
      CarriedPhase(chains, moved, shared, disk.data, disk.disk, h, Device);
    }

    /** The device carries out any request it has taken. */
    method Complete(h: nat)
      requires Valid() && h in disk.chains && disk.chains[h].phase == Device
      modifies disk`status, disk`usedRing, disk`usedIdx, disk`data, disk`disk, disk`chains, disk`done
      ensures Valid() && disk.chains == SetPhase(old(disk.chains), h, Used)
      ensures var c := old(disk.chains[h]);
              if c.req.write then
                && disk.data == old(disk.data)
                && disk.disk == old(disk.disk)[c.req.sector := Contents(old(disk.data), c.buf)]
              else
                && disk.disk == old(disk.disk)
                && disk.data == old(disk.data)[c.buf := Contents(old(disk.disk), c.req.sector)]
    {
      hide Disk.Valid, CarriedAll;
      ghost var chains, data, sectors := disk.chains, disk.data, disk.disk;
      disk.Complete(h);
      CarriedDone(chains, moved, shared, data, sectors, h, disk.data, disk.disk);
    }

    /** One turn of the interrupt handler. */
    method Handle() returns (b: nat, ghost h: nat)
      requires Valid() && disk.seenIdx != disk.usedIdx
      modifies disk`busy, disk`seenIdx, disk`chains, disk`done
      ensures Valid() && h in old(disk.chains) && old(disk.chains)[h].phase == Used && old(disk.chains)[h].buf == b
      ensures disk.chains == SetPhase(old(disk.chains), h, Handled) && disk.busy == old(disk.busy) - {b}
    {
      hide Disk.Valid, CarriedAll;
      ghost var chains := disk.chains;
      b, h := disk.Handle();
      CarriedPhase(chains, moved, shared, disk.data, disk.disk, h, Handled);
    }

    /**
     The return: a write has put on the sector what the buffer held when it was made, a read has
     put into the buffer what the sector held, and buffer and sector agree.
     */
    method End(b: nat, head: nat)
      requires Valid() && head in disk.chains && disk.chains[head].buf == b && b !in disk.busy
      modifies disk`bufs, disk`free, disk`desc, disk`chains, disk`owner, disk`using
      ensures Valid() && disk.chains == old(disk.chains) - {head} && b !in disk.using
      ensures head !in shared ==>
                Contents(disk.data, b) == Contents(disk.disk, old(disk.chains)[head].req.sector) == moved[head]
    {
      hide Disk.Valid;
      ghost var chains := disk.chains;
      disk.NotBusy(head);
      disk.Finish(b, head);
      CarriedRemove(chains, moved, shared, disk.data, disk.disk, head);
    }
  }
}
