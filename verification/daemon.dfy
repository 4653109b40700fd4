/** `seat/session/impl/diazepam/daemon.c`: the seat daemon opens devices for its clients and decides whose
    display devices hold DRM master. Ioctls succeed, and opening a device does not grant master by
    itself. */
module SeatDaemon {

  const MAX_DEVICES := 256
  const WRAP := 0x1_0000_0000

  datatype Device = Device(fd: int, id: nat, isDrm: bool)

  datatype SeatClient = SeatClient(fd: int, vt: int, devices: seq<Device>, nDevices: nat)

  datatype Reply = Ack | Error | Enabled

  /** What the path of a device allows. */
  datatype Path = Card | Input | Forbidden

  // ---------------------------------------------------------------- the devices of all clients

  predicate Owns(clients: seq<SeatClient>, i: int, j: int) { 0 <= i < |clients| && 0 <= j < |clients[i].devices| }

  ghost predicate DistinctVts(clients: seq<SeatClient>) {
    forall i, j :: 0 <= i < j < |clients| ==> clients[i].vt != clients[j].vt
  }

  ghost predicate DistinctFds(clients: seq<SeatClient>) {
    forall i, j, k, l | Owns(clients, i, j) && Owns(clients, k, l) ::
      clients[i].devices[j].fd == clients[k].devices[l].fd ==> i == k && j == l
  }

  ghost predicate DistinctIds(clients: seq<SeatClient>, nextId: nat) {
    && (forall i, j :: Owns(clients, i, j) ==> 1 <= clients[i].devices[j].id < nextId)
    && (forall i, j, k, l | Owns(clients, i, j) && Owns(clients, k, l) ::
      clients[i].devices[j].id == clients[k].devices[l].id ==> i == k && j == l)
  }

  predicate Counted(clients: seq<SeatClient>) {
    forall i :: 0 <= i < |clients| ==> clients[i].nDevices == |clients[i].devices| <= MAX_DEVICES + 1
  }

  /** Is fd a display device of a client on this VT? */
  ghost predicate DrmOn(clients: seq<SeatClient>, vt: int, fd: int) {
    exists i, j :: Owns(clients, i, j) && clients[i].vt == vt && clients[i].devices[j].isDrm &&
      clients[i].devices[j].fd == fd
  }

  /** All devices that hold master belong to one client. */
  ghost predicate OneMaster(clients: seq<SeatClient>, master: set<int>) {
    exists vt :: AllOn(clients, vt, master)
  }

  ghost predicate AllOn(clients: seq<SeatClient>, vt: int, fds: set<int>) {
    forall fd :: fd in fds ==> DrmOn(clients, vt, fd)
  }

  /** In particular no two clients hold master at the same time. */
  lemma MastersShareClient(clients: seq<SeatClient>, master: set<int>, i: int, j: int, k: int, l: int)
    requires DistinctVts(clients) && DistinctFds(clients) && OneMaster(clients, master)
    requires Owns(clients, i, j) && Owns(clients, k, l) && clients[i].devices[j].fd in master
    requires clients[k].devices[l].fd in master
    ensures i == k
  {
    var vt :| AllOn(clients, vt, master);
    VtOf(clients, vt, i, j);
    VtOf(clients, vt, k, l);
  }

  lemma VtOf(clients: seq<SeatClient>, vt: int, i: int, j: int)
    requires DistinctFds(clients) && Owns(clients, i, j) && DrmOn(clients, vt, clients[i].devices[j].fd)
    ensures clients[i].vt == vt
  {
    var k, l :| Owns(clients, k, l) && clients[k].vt == vt && clients[k].devices[l].isDrm &&
      clients[k].devices[l].fd == clients[i].devices[j].fd;
  }

  /** All that a message can change. */
  datatype Seats = Seats(curVt: int, clients: seq<SeatClient>, nextId: nat, master: set<int>)

  class Daemon {
    var curVt: int
    var clients: seq<SeatClient>
    var nextId: nat
    /** The file descriptors that hold master, as the kernel keeps them. */
    var master: set<int>
    /** How many devices have been opened. */
    ghost var opens: nat

    ghost predicate Valid()
      reads this
    {
      && DistinctVts(clients) && DistinctFds(clients) && Counted(clients) && OneMaster(clients, master)
      && nextId == (1 + opens) % WRAP
      && (opens < WRAP - 1 ==> DistinctIds(clients, nextId))
    }

    ghost function Now(): Seats
      reads this
    {
      Seats(curVt, clients, nextId, master)
    }

    constructor ()
      ensures Valid() && clients == [] && master == {} && opens == 0 && nextId == 1 && curVt == 0
    {
      curVt, clients, nextId, master, opens := 0, [], 1, {}, 0;
      new;
      assert AllOn(clients, 0, master);
    }

    /** get_client_from_fd: the first client with this socket. */
    method ClientFromFd(fd: int) returns (r: int)
      ensures r < 0 ==> r == -1 && forall i :: 0 <= i < |clients| ==> clients[i].fd != fd
      ensures r >= 0 ==> r < |clients| && clients[r].fd == fd && forall i :: 0 <= i < r ==> clients[i].fd != fd
    {
      r := 0;
      while r < |clients|
        invariant 0 <= r <= |clients| && forall i :: 0 <= i < r ==> clients[i].fd != fd
      {
        if clients[r].fd == fd { return; }
        r := r + 1;
      }
      return -1;
    }

    /** drm_activate_master: master for the display devices of this VT, and for no others of the list. */
    method ActivateMaster(vt: int)
      requires DistinctFds(clients)
      requires forall fd :: fd in master ==> exists vt :: DrmOn(clients, vt, fd)
      modifies this`master
      ensures forall fd :: fd in master <==> DrmOn(clients, vt, fd)
    {
      var i := 0;
      while i < |clients|
        invariant 0 <= i <= |clients|
        invariant forall fd :: fd in master ==> exists vt :: DrmOn(clients, vt, fd)
        invariant forall k, l :: Owns(clients, k, l) && k < i && clients[k].devices[l].isDrm ==>
          (clients[k].devices[l].fd in master <==> clients[k].vt == vt)
      {
        var j := 0;
        while j < |clients[i].devices|
          invariant 0 <= j <= |clients[i].devices|
          invariant forall fd :: fd in master ==> exists vt :: DrmOn(clients, vt, fd)
          invariant forall k, l ::
            Owns(clients, k, l) && (k < i || (k == i && l < j)) && clients[k].devices[l].isDrm ==>
            (clients[k].devices[l].fd in master <==> clients[k].vt == vt)
        {
          var d := clients[i].devices[j];
          if d.isDrm {
            assert Owns(clients, i, j);
            assert DrmOn(clients, clients[i].vt, d.fd);
            master := if clients[i].vt == vt then master + {d.fd} else master - {d.fd};
          }
          j := j + 1;
        }
        i := i + 1;
      }
      forall fd | fd in master ensures DrmOn(clients, vt, fd) {
        var v :| DrmOn(clients, v, fd);
        var k, l :| Owns(clients, k, l) && clients[k].vt == v && clients[k].devices[l].isDrm &&
          clients[k].devices[l].fd == fd;
      }
    }

    /** seat_open_seat; vt is the current one, vtOpen and vtDisabled are the outcomes of taking it over. */
    method OpenSeat(clientFd: int, vt: int, vtOpen: bool, vtDisabled: bool) returns (r: Reply)
      requires Valid()
      modifies this
      ensures Valid() && master == old(master) && nextId == old(nextId) && opens == old(opens)
      ensures r == if (exists i ::
        0 <= i < |old(clients)| && old(clients)[i].vt == vt) || !vtOpen || !vtDisabled then Error else Enabled
      ensures r.Error? ==> clients == old(clients) && curVt == old(curVt)
      ensures r.Enabled? ==> clients == old(clients) + [SeatClient(clientFd, vt, [], 0)] && curVt == vt
    {
      var i := 0;
      while i < |clients|
        invariant 0 <= i <= |clients| && forall k :: 0 <= k < i ==> clients[k].vt != vt
      {
        if clients[i].vt == vt { return Error; }
        i := i + 1;
      }
      if !vtOpen { return Error; }
      if !vtDisabled { return Error; }
      clients := clients + [SeatClient(clientFd, vt, [], 0)];
      MoreClients(old(clients), clients, master);
      curVt := vt;
      return Enabled;
    }

    /** seat_open_device; fd is what opening the device returns, not the descriptor of another device. The
        devices the clients have already are rearranged for this client's VT first. */
    method OpenDevice(clientFd: int, path: Path, fd: int) returns (r: Reply)
      requires Valid()
      requires fd >= 0 ==> forall i, j :: Owns(clients, i, j) ==> clients[i].devices[j].fd != fd
      modifies this
      ensures Valid() && curVt == old(curVt)
      ensures r.Error? ==>
        clients == old(clients) && master == old(master) && nextId == old(nextId) && opens == old(opens)
      ensures r == Ack <==>
        exists i :: First(old(clients), clientFd, i) && old(clients)[i].nDevices <= MAX_DEVICES && path != Forbidden &&
          fd >= 0
      ensures r != Enabled
      ensures r == Ack ==> opens == old(opens) + 1 && nextId == (old(nextId) + 1) % WRAP
      ensures r == Ack ==>
        exists i :: Gains(old(clients), clients, clientFd, i, Device(fd, old(nextId), path.Card?), master)
    {
      hide DistinctVts, DistinctFds, DistinctIds, Counted, OneMaster;
      var c := ClientFromFd(clientFd);
      if c < 0 { return Error; }
      ghost var was := clients;
      assert First(clients, clientFd, c);
      if clients[c].nDevices > MAX_DEVICES { return Error; }
      if path == Forbidden { return Error; }
      if fd < 0 { return Error; }
      MastersListed(clients, master);
      ActivateMaster(clients[c].vt);
      DeviceAdded(clients, master, c, Device(fd, nextId, path.Card?), nextId);
      clients := clients[c := WithDevice(clients[c], Device(fd, nextId, path.Card?))];
      assert Gains(was, clients, clientFd, c, Device(fd, nextId, path.Card?), master);
      nextId := (nextId + 1) % WRAP;
      opens := opens + 1;
      return Ack;
    }

    /** seat_close_device: closing the descriptor also gives up its master. */
    method CloseDevice(clientFd: int, id: nat) returns (r: Reply)
      requires Valid()
      modifies this
      ensures Valid() && curVt == old(curVt) && nextId == old(nextId) && opens == old(opens)
      ensures r == Error || r == Ack
      ensures r == Error ==> clients == old(clients) && master == old(master)
      ensures r == Error <==>
        forall i, j :: First(old(clients), clientFd, i) && Owns(old(clients), i, j) ==>
          old(clients)[i].devices[j].id != id
      ensures r == Ack ==> exists i, j :: Loses(old(clients), clients, clientFd, i, j, id, old(master), master)
    {
      var c := ClientFromFd(clientFd);
      if c < 0 { return Error; }
      assert First(clients, clientFd, c);
      var j := 0;
      while j < |clients[c].devices|
        invariant 0 <= j <= |clients[c].devices| && forall l :: 0 <= l < j ==> clients[c].devices[l].id != id
      {
        if clients[c].devices[j].id == id {
          assert Owns(clients, c, j);
          DeviceRemoved(clients, master, c, j, nextId);
          master := master - {clients[c].devices[j].fd};
          clients := clients[c := WithoutDevice(clients[c], j)];
          assert Loses(old(clients), clients, clientFd, c, j, id, old(master), master);
          return Ack;
        }
        j := j + 1;
      }
      return Error;
    }

    /** seat_close_seat: the client's display devices give up master and its record goes. */
    method CloseSeat(clientFd: int) returns (r: Reply)
      requires Valid()
      modifies this
      ensures Valid() && curVt == old(curVt) && nextId == old(nextId) && opens == old(opens)
      ensures r == Error || r == Ack
      ensures r == Error <==> forall i :: 0 <= i < |old(clients)| ==> old(clients)[i].fd != clientFd
      ensures r == Error ==> clients == old(clients) && master == old(master)
      ensures r != Error ==> exists i :: Leaves(old(clients), clients, clientFd, i, old(master), master)
    {
      var c := ClientFromFd(clientFd);
      if c < 0 { return Error; }
      assert First(clients, clientFd, c);
      var j := 0;
      while j < |clients[c].devices|
        invariant clients == old(clients) && curVt == old(curVt) && nextId == old(nextId) && opens == old(opens)
        invariant 0 <= j <= |clients[c].devices|
        invariant master == old(master) - DrmFds(clients[c].devices[..j])
      {
        assert clients[c].devices[..j + 1] == clients[c].devices[..j] + [clients[c].devices[j]];
        if clients[c].devices[j].isDrm { master := master - {clients[c].devices[j].fd}; }
        j := j + 1;
      }
      assert clients[c].devices[..j] == clients[c].devices;
      ClientRemoved(clients, old(master), c, nextId);
      clients := clients[..c] + clients[c + 1..];
      assert Leaves(old(clients), clients, clientFd, c, old(master), master);
      return Ack;
    }

    /** on_vt_activate: the client of the VT that is now shown, if there is one, gets master. */
    method OnVtActivate(vt: int)
      requires Valid()
      modifies this
      ensures Valid() && clients == old(clients) && nextId == old(nextId) && opens == old(opens)
      ensures if exists i :: 0 <= i < |clients| && clients[i].vt == vt
        then curVt == vt && forall fd :: fd in master <==> DrmOn(clients, vt, fd)
        else curVt == old(curVt) && master == old(master)
    {
      var i := 0;
      while i < |clients|
        invariant 0 <= i <= |clients| && Valid()
        invariant clients == old(clients) && nextId == old(nextId) && opens == old(opens)
        invariant if exists k :: 0 <= k < i && clients[k].vt == vt
          then curVt == vt && forall fd :: fd in master <==> DrmOn(clients, vt, fd)
          else curVt == old(curVt) && master == old(master)
      {
        if clients[i].vt == vt {
          curVt := vt;
          MastersListed(clients, master);
          ActivateMaster(vt);
          assert AllOn(clients, vt, master);
        }
        i := i + 1;
      }
    }
  }

  predicate First(clients: seq<SeatClient>, fd: int, i: int) {
    0 <= i < |clients| && clients[i].fd == fd && forall k :: 0 <= k < i ==> clients[k].fd != fd
  }

  /** The i-th client has one device more, and master is where its VT has display devices already. */
  ghost predicate Gains(clients: seq<SeatClient>, clients': seq<SeatClient>, clientFd: int, i: int, d: Device,
                        master: set<int>) {
    && First(clients, clientFd, i)
    && clients' ==
       clients[i := SeatClient(clients[i].fd, clients[i].vt, clients[i].devices + [d], clients[i].nDevices + 1)]
    && forall fd :: fd in master <==> DrmOn(clients, clients[i].vt, fd)
  }

  /** The i-th client has lost its j-th device. */
  ghost predicate Loses(clients: seq<SeatClient>, clients': seq<SeatClient>, clientFd: int, i: int, j: int, id: nat,
                        master: set<int>, master': set<int>) {
    && First(clients, clientFd, i) && Owns(clients, i, j) && clients[i].devices[j].id == id && clients[i].nDevices > 0
    && clients' == clients[i := SeatClient(clients[i].fd, clients[i].vt,
         clients[i].devices[..j] + clients[i].devices[j + 1..], clients[i].nDevices - 1)]
    && master' == master - {clients[i].devices[j].fd}
  }

  /** The i-th client is gone, and so is its master. */
  ghost predicate Leaves(clients: seq<SeatClient>, clients': seq<SeatClient>, clientFd: int, i: int, master: set<int>,
                         master': set<int>) {
    First(clients, clientFd, i) && clients' == clients[..i] + clients[i + 1..] &&
      master' == master - DrmFds(clients[i].devices)
  }

  /** An accepted open leaves all master on the shown VT exactly when its client is the one shown, or has
      no display device that could take master away. */
  lemma OpenKeepsShown(clients: seq<SeatClient>, clients': seq<SeatClient>, clientFd: int, i: int, d: Device,
                       master: set<int>, curVt: int)
    requires Gains(clients, clients', clientFd, i, d, master) && DistinctFds(clients')
    ensures AllOn(clients', curVt, master) <==>
      clients[i].vt == curVt || forall fd :: !DrmOn(clients, clients[i].vt, fd)
  {
    forall fd | fd in master ensures DrmOn(clients', clients[i].vt, fd) {
      var k, l :| Owns(clients, k, l) && clients[k].vt == clients[i].vt && clients[k].devices[l].isDrm &&
        clients[k].devices[l].fd == fd;
      assert Owns(clients', k, l) && clients'[k].devices[l] == clients[k].devices[l];
    }
    if fd :| DrmOn(clients, clients[i].vt, fd) {
      assert DrmOn(clients', clients[i].vt, fd);
      var k, l :| Owns(clients', k, l) && clients'[k].vt == clients[i].vt && clients'[k].devices[l].isDrm &&
        clients'[k].devices[l].fd == fd;
      if AllOn(clients', curVt, master) { VtOf(clients', curVt, k, l); }
    }
  }

  function WithDevice(c: SeatClient, d: Device): SeatClient {
    c.(devices := c.devices + [d], nDevices := c.nDevices + 1)
  }

  function WithoutDevice(c: SeatClient, j: int): SeatClient
    requires 0 <= j < |c.devices| && c.nDevices > 0
  {
    c.(devices := c.devices[..j] + c.devices[j + 1..], nDevices := c.nDevices - 1)
  }

  function DrmFds(ds: seq<Device>): set<int> { set d | d in ds && d.isDrm :: d.fd }

  // ---------------------------------------------------------------- runs

  /** Messages of clients and signals of the kernel, with what the system calls return. */
  datatype Input =
    | OpenSeat(clientFd: int, vt: int, vtOpen: bool, vtDisabled: bool)
    | CloseSeat(clientFd: int)
    | OpenDevice(clientFd: int, path: Path, fd: int)
    | CloseDevice(clientFd: int, id: nat)
    | VtActivate(vt: int)

  predicate InUse(clients: seq<SeatClient>, fd: int) {
    exists c, d :: c in clients && d in c.devices && d.fd == fd
  }

  /** Does the j-th device of client i hold master? */
  predicate Holds(clients: seq<SeatClient>, master: set<int>, i: int, j: int) {
    Owns(clients, i, j) && clients[i].devices[j].fd in master
  }

  ghost predicate Exclusive(clients: seq<SeatClient>, master: set<int>) {
    forall i, j, k, l :: Holds(clients, master, i, j) && Holds(clients, master, k, l) ==> i == k
  }

  /** Does a client with this socket exist? */
  predicate Connected(clients: seq<SeatClient>, fd: int) { exists i :: 0 <= i < |clients| && clients[i].fd == fd }

  /** What the daemon makes of one input, and what it answers; there is no answer to a signal. */
  ghost predicate Answers(a: Seats, input: Input, r: Reply, b: Seats) {
    match input
    case OpenSeat(fd, vt, vtOpen, vtDisabled) =>
      if (exists i :: 0 <= i < |a.clients| && a.clients[i].vt == vt) || !vtOpen || !vtDisabled then r == Error && b == a
      else r == Enabled && b == a.(clients := a.clients + [SeatClient(fd, vt, [], 0)], curVt := vt)
    case CloseSeat(fd) =>
      if !Connected(a.clients, fd) then r == Error && b == a
      else
        && r == Ack && b == a.(clients := b.clients, master := b.master)
        && exists i :: Leaves(a.clients, b.clients, fd, i, a.master, b.master)
    case OpenDevice(clientFd, path, fd) =>
      if r == Ack then
        && b == a.(clients := b.clients, master := b.master, nextId := (a.nextId + 1) % WRAP)
        && path != Forbidden && fd >= 0
        && exists i :: Gains(a.clients, b.clients, clientFd, i, Device(fd, a.nextId, path.Card?), b.master)
      else r == Error && b == a
    case CloseDevice(clientFd, id) =>
      if r == Ack then
        && b == a.(clients := b.clients, master := b.master)
        && exists i, j :: Loses(a.clients, b.clients, clientFd, i, j, id, a.master, b.master)
      else r == Error && b == a
    case VtActivate(vt) =>
      if exists i :: 0 <= i < |a.clients| && a.clients[i].vt == vt
      then b == a.(curVt := vt, master := b.master) && forall fd :: fd in b.master <==> DrmOn(a.clients, vt, fd)
      else b == a
  }

  method Take(d: Daemon, input: Input) returns (r: Reply)
    requires d.Valid() && !(input.OpenDevice? && InUse(d.clients, input.fd))
    modifies d
    ensures d.Valid() && Answers(old(d.Now()), input, r, d.Now())
  {
    hide DistinctVts, DistinctFds, DistinctIds, Counted, OneMaster, Gains, Loses, Leaves;
    r := Ack;
    match input {
      case OpenSeat(clientFd, vt, vtOpen, vtDisabled) => r := d.OpenSeat(clientFd, vt, vtOpen, vtDisabled);
      case CloseSeat(clientFd) => r := d.CloseSeat(clientFd);
      case OpenDevice(clientFd, path, fd) =>
        Unused(d.clients, fd);
        r := d.OpenDevice(clientFd, path, fd);
      case CloseDevice(clientFd, id) => r := d.CloseDevice(clientFd, id);
      case VtActivate(vt) => d.OnVtActivate(vt);
    }
  }

  /** The states of a run, from the start on, with its replies. */
  ghost predicate IsRun(inputs: seq<Input>, replies: seq<Reply>, trace: seq<Seats>) {
    && |replies| <= |inputs| && |trace| == |replies| + 1 && trace[0] == Seats(0, [], 1, {})
    && (forall k :: 0 <= k < |replies| ==> Answers(trace[k], inputs[k], replies[k], trace[k + 1]))
    && (forall k :: 0 <= k < |trace| ==> Exclusive(trace[k].clients, trace[k].master))
  }

  /** Any inputs in any order, as long as the kernel hands out descriptors that are not in use: every one is
      answered as it should be, and at every point the devices with master belong to one client. */
  method Run(inputs: seq<Input>) returns (d: Daemon, replies: seq<Reply>, ghost trace: seq<Seats>)
    ensures fresh(d) && d.Valid() && |replies| <= |inputs|
    ensures |replies| < |inputs| ==> inputs[|replies|].OpenDevice? && InUse(d.clients, inputs[|replies|].fd)
    ensures IsRun(inputs, replies, trace) && trace[|replies|] == d.Now()
  {
    hide Answers, Exclusive;
    d := new Daemon();
    replies, trace := [], [d.Now()];
    MasterExclusive(d.clients, d.master);
    while |replies| < |inputs| && !(inputs[|replies|].OpenDevice? && InUse(d.clients, inputs[|replies|].fd))
      invariant |replies| <= |inputs| && fresh(d) && d.Valid()
      invariant IsRun(inputs, replies, trace) && trace[|replies|] == d.Now()
    {
      var r := Take(d, inputs[|replies|]);
      MasterExclusive(d.clients, d.master);
      replies, trace := replies + [r], trace + [d.Now()];
    }
  }

  lemma MasterExclusive(clients: seq<SeatClient>, master: set<int>)
    requires DistinctVts(clients) && DistinctFds(clients) && OneMaster(clients, master)
    ensures Exclusive(clients, master)
  {
    forall i, j, k, l | Holds(clients, master, i, j) && Holds(clients, master, k, l) ensures i == k {
      MastersShareClient(clients, master, i, j, k, l);
    }
  }

  lemma Unused(clients: seq<SeatClient>, fd: int)
    requires !InUse(clients, fd)
    ensures forall i, j :: Owns(clients, i, j) ==> clients[i].devices[j].fd != fd
  {
    forall i, j | Owns(clients, i, j) ensures clients[i].devices[j].fd != fd {
      assert clients[i] in clients && clients[i].devices[j] in clients[i].devices;
    }
  }

  // ---------------------------------------------------------------- what a change of the lists keeps

  lemma MastersListed(clients: seq<SeatClient>, master: set<int>)
    requires OneMaster(clients, master)
    ensures forall fd :: fd in master ==> exists vt :: DrmOn(clients, vt, fd)
  {
  }

  lemma MoreClients(clients: seq<SeatClient>, clients': seq<SeatClient>, master: set<int>)
    requires |clients'| == |clients| + 1 && clients'[..|clients|] == clients && clients'[|clients|].devices == []
    requires OneMaster(clients, master)
    ensures forall i, j :: Owns(clients', i, j) <==> Owns(clients, i, j)
    ensures forall i :: 0 <= i < |clients| ==> clients'[i] == clients[i]
    ensures OneMaster(clients', master)
  {
    assert forall i :: 0 <= i < |clients| ==> clients'[i] == clients'[..|clients|][i];
    var vt :| AllOn(clients, vt, master);
    forall fd | fd in master ensures DrmOn(clients', vt, fd) {
      var i, j :| Owns(clients, i, j) && clients[i].vt == vt && clients[i].devices[j].isDrm &&
        clients[i].devices[j].fd == fd;
      assert Owns(clients', i, j);
    }
    assert AllOn(clients', vt, master);
  }

  lemma DeviceAdded(clients: seq<SeatClient>, master: set<int>, c: nat, d: Device, nextId: nat)
    requires DistinctVts(clients) && DistinctFds(clients) && Counted(clients) && c < |clients|
    requires clients[c].nDevices <= MAX_DEVICES
    requires forall i, j :: Owns(clients, i, j) ==> clients[i].devices[j].fd != d.fd
    requires (forall fd :: fd in master ==> DrmOn(clients, clients[c].vt, fd)) && d.id == nextId
    ensures var clients' := clients[c := WithDevice(clients[c], d)];
      && DistinctVts(clients') && DistinctFds(clients') && Counted(clients') && OneMaster(clients', master)
      && (DistinctIds(clients, nextId) && nextId >= 1 ==> DistinctIds(clients', nextId + 1))
  {
    var clients' := clients[c := WithDevice(clients[c], d)];
    var n := |clients[c].devices|;
    forall i, j | Owns(clients', i, j) && !(i == c && j == n)
      ensures Owns(clients, i, j) && clients'[i].devices[j] == clients[i].devices[j] { }
    assert clients'[c].devices[n] == d;
    forall fd | fd in master ensures DrmOn(clients', clients[c].vt, fd) {
      var i, j :| Owns(clients, i, j) && clients[i].vt == clients[c].vt && clients[i].devices[j].isDrm &&
        clients[i].devices[j].fd == fd;
      assert Owns(clients', i, j) && clients'[i].devices[j] == clients[i].devices[j];
    }
    assert AllOn(clients', clients[c].vt, master);
  }

  lemma DeviceRemoved(clients: seq<SeatClient>, master: set<int>, c: nat, j: nat, nextId: nat)
    requires DistinctVts(clients) && DistinctFds(clients) && Counted(clients) && OneMaster(clients, master)
    requires Owns(clients, c, j)
    ensures clients[c].nDevices > 0
    ensures var clients' := clients[c := WithoutDevice(clients[c], j)];
      && DistinctVts(clients') && DistinctFds(clients') && Counted(clients') &&
        OneMaster(clients', master - {clients[c].devices[j].fd})
      && (DistinctIds(clients, nextId) ==> DistinctIds(clients', nextId))
  {
    var clients' := clients[c := WithoutDevice(clients[c], j)];
    forall i, k | Owns(clients', i, k)
      ensures Owns(clients, i, Before(c, j, i, k))
      ensures clients'[i].devices[k] == clients[i].devices[Before(c, j, i, k)] { }
    var vt :| AllOn(clients, vt, master);
    forall fd | fd in master - {clients[c].devices[j].fd} ensures DrmOn(clients', vt, fd) {
      var i, k :| Owns(clients, i, k) && clients[i].vt == vt && clients[i].devices[k].isDrm &&
        clients[i].devices[k].fd == fd;
      var k' := if i == c && k > j then k - 1 else k;
      assert Owns(clients', i, k') && clients'[i].devices[k'] == clients[i].devices[k];
    }
    assert AllOn(clients', vt, master - {clients[c].devices[j].fd});
  }

  /** Where the k-th device of client i stood before device j of client c was taken out. */
  function Before(c: int, j: int, i: int, k: int): int { if i == c && k >= j then k + 1 else k }

  lemma ClientRemoved(clients: seq<SeatClient>, master: set<int>, c: nat, nextId: nat)
    requires DistinctVts(clients) && DistinctFds(clients) && Counted(clients) && OneMaster(clients, master)
    requires c < |clients|
    ensures var clients' := clients[..c] + clients[c + 1..];
      && DistinctVts(clients') && DistinctFds(clients') && Counted(clients') &&
        OneMaster(clients', master - DrmFds(clients[c].devices))
      && (DistinctIds(clients, nextId) ==> DistinctIds(clients', nextId))
  {
    var clients' := clients[..c] + clients[c + 1..];
    forall i | 0 <= i < |clients'| ensures clients'[i] == clients[if i < c then i else i + 1] { }
    forall i, k | Owns(clients', i, k) ensures Owns(clients, if i < c then i else i + 1, k) { }
    var vt :| AllOn(clients, vt, master);
    forall fd | fd in master - DrmFds(clients[c].devices) ensures DrmOn(clients', vt, fd) {
      var i, k :| Owns(clients, i, k) && clients[i].vt == vt && clients[i].devices[k].isDrm &&
        clients[i].devices[k].fd == fd;
      assert clients[i].devices[k] in clients[i].devices;
      assert i != c;
      var i' := if i < c then i else i - 1;
      assert Owns(clients', i', k) && clients'[i'] == clients[i];
    }
    assert AllOn(clients', vt, master - DrmFds(clients[c].devices));
  }

  // ---------------------------------------------------------------- which devices are open

  function WithId(ds: seq<Device>, id: nat): nat {
    if ds == [] then 0 else WithId(ds[..|ds| - 1], id) + (if ds[|ds| - 1].id == id then 1 else 0)
  }

  /** How many open devices have this id. */
  function OpenWithId(clients: seq<SeatClient>, id: nat): nat {
    if clients == [] then 0
    else OpenWithId(clients[..|clients| - 1], id) + WithId(clients[|clients| - 1].devices, id)
  }

  lemma {:induction false} WithIdAppend(a: seq<Device>, b: seq<Device>, id: nat)
    ensures WithId(a + b, id) == WithId(a, id) + WithId(b, id)
  {
    if b == [] {
      assert a + b == a;
    } else {
      assert (a + b)[..|a + b| - 1] == a + b[..|b| - 1];
      WithIdAppend(a, b[..|b| - 1], id);
    }
  }

  lemma WithIdOne(d: Device, id: nat)
    ensures WithId([d], id) == if d.id == id then 1 else 0
  {
    assert [d][..0] == [];
  }

  lemma WithIdCut(ds: seq<Device>, j: nat, id: nat)
    requires j < |ds|
    ensures WithId(ds[..j] + ds[j + 1..], id) + (if ds[j].id == id then 1 else 0) == WithId(ds, id)
  {
    assert ds == ds[..j] + ([ds[j]] + ds[j + 1..]);
    WithIdAppend(ds[..j], [ds[j]] + ds[j + 1..], id);
    WithIdAppend([ds[j]], ds[j + 1..], id);
    WithIdAppend(ds[..j], ds[j + 1..], id);
    WithIdOne(ds[j], id);
  }

  lemma {:induction false} OpenAppend(a: seq<SeatClient>, b: seq<SeatClient>, id: nat)
    ensures OpenWithId(a + b, id) == OpenWithId(a, id) + OpenWithId(b, id)
  {
    if b == [] {
      assert a + b == a;
    } else {
      assert (a + b)[..|a + b| - 1] == a + b[..|b| - 1];
      OpenAppend(a, b[..|b| - 1], id);
    }
  }

  lemma OpenOne(c: SeatClient, id: nat)
    ensures OpenWithId([c], id) == WithId(c.devices, id)
  {
    assert [c][..0] == [];
  }

  /** One client stands between those before and those behind it. */
  lemma OpenAt(clients: seq<SeatClient>, i: nat, id: nat)
    requires i < |clients|
    ensures OpenWithId(clients, id) ==
      OpenWithId(clients[..i], id) + WithId(clients[i].devices, id) + OpenWithId(clients[i + 1..], id)
    ensures OpenWithId(clients[..i] + clients[i + 1..], id) ==
      OpenWithId(clients[..i], id) + OpenWithId(clients[i + 1..], id)
  {
    assert clients == clients[..i] + ([clients[i]] + clients[i + 1..]);
    OpenAppend(clients[..i], [clients[i]] + clients[i + 1..], id);
    OpenAppend([clients[i]], clients[i + 1..], id);
    OpenAppend(clients[..i], clients[i + 1..], id);
    OpenOne(clients[i], id);
  }

  lemma OpenUpdated(clients: seq<SeatClient>, i: nat, c: SeatClient, id: nat)
    requires i < |clients|
    ensures OpenWithId(clients[i := c], id) + WithId(clients[i].devices, id) ==
      OpenWithId(clients, id) + WithId(c.devices, id)
  {
    OpenAt(clients, i, id);
    OpenAt(clients[i := c], i, id);
    assert clients[i := c][..i] == clients[..i] && clients[i := c][i + 1..] == clients[i + 1..];
  }

  /** The devices of the first client with this socket. */
  function DevicesOf(clients: seq<SeatClient>, fd: int): seq<Device> {
    if clients == [] then [] else if clients[0].fd == fd then clients[0].devices else DevicesOf(clients[1..], fd)
  }

  lemma {:induction false} FirstDevices(clients: seq<SeatClient>, fd: int, i: nat)
    requires First(clients, fd, i)
    ensures DevicesOf(clients, fd) == clients[i].devices
  {
    if i > 0 {
      assert forall k :: 0 <= k < |clients| - 1 ==> clients[1..][k] == clients[k + 1];
      FirstDevices(clients[1..], fd, i - 1);
    }
  }

  /** Devices with this id that an input opens, and those that it closes. */
  function Opens(a: Seats, input: Input, r: Reply, id: nat): nat {
    if input.OpenDevice? && r == Ack && a.nextId == id then 1 else 0
  }

  function Closes(a: Seats, input: Input, r: Reply, id: nat): nat {
    if input.CloseDevice? && r == Ack && input.id == id then 1
    else if input.CloseSeat? && r == Ack then WithId(DevicesOf(a.clients, input.clientFd), id)
    else 0
  }

  lemma AnswerCounts(a: Seats, input: Input, r: Reply, b: Seats, id: nat)
    requires Answers(a, input, r, b)
    ensures OpenWithId(b.clients, id) + Closes(a, input, r, id) == OpenWithId(a.clients, id) + Opens(a, input, r, id)
  {
    hide OpenWithId, WithId, DevicesOf, Leaves, Gains, Loses;
    match input {
      case OpenSeat(fd, vt, _, _) =>
        if r == Enabled { SeatCounts(a.clients, SeatClient(fd, vt, [], 0), id); }
      case CloseSeat(fd) =>
        if r == Ack {
          var i :| Leaves(a.clients, b.clients, fd, i, a.master, b.master);
          LeavesCounts(a.clients, b.clients, fd, i, a.master, b.master, id);
        }
      case OpenDevice(clientFd, path, fd) =>
        if r == Ack {
          var d := Device(fd, a.nextId, path.Card?);
          var i :| Gains(a.clients, b.clients, clientFd, i, d, b.master);
          GainsCounts(a.clients, b.clients, clientFd, i, d, b.master, id);
        }
      case CloseDevice(clientFd, gone) =>
        if r == Ack {
          var i, j :| Loses(a.clients, b.clients, clientFd, i, j, gone, a.master, b.master);
          LosesCounts(a.clients, b.clients, clientFd, i, j, gone, a.master, b.master, id);
        }
      case VtActivate(_) =>
    }
  }

  lemma LeavesCounts(clients: seq<SeatClient>, clients': seq<SeatClient>, fd: int, i: int, master: set<int>,
                     master': set<int>, id: nat)
    requires Leaves(clients, clients', fd, i, master, master')
    ensures OpenWithId(clients', id) + WithId(DevicesOf(clients, fd), id) == OpenWithId(clients, id)
  {
    hide OpenWithId, WithId, DevicesOf;
    FirstDevices(clients, fd, i);
    OpenAt(clients, i, id);
  }

  lemma GainsCounts(clients: seq<SeatClient>, clients': seq<SeatClient>, fd: int, i: int, d: Device, master: set<int>,
                    id: nat)
    requires Gains(clients, clients', fd, i, d, master)
    ensures OpenWithId(clients', id) == OpenWithId(clients, id) + (if d.id == id then 1 else 0)
  {
    hide OpenWithId, WithId;
    OpenUpdated(clients, i, clients'[i], id);
    WithIdAppend(clients[i].devices, [d], id);
    WithIdOne(d, id);
  }

  lemma LosesCounts(clients: seq<SeatClient>, clients': seq<SeatClient>, fd: int, i: int, j: int, gone: nat,
                    master: set<int>, master': set<int>, id: nat)
    requires Loses(clients, clients', fd, i, j, gone, master, master')
    ensures OpenWithId(clients', id) + (if gone == id then 1 else 0) == OpenWithId(clients, id)
  {
    hide OpenWithId, WithId;
    OpenUpdated(clients, i, clients'[i], id);
    WithIdCut(clients[i].devices, j, id);
  }

  lemma SeatCounts(clients: seq<SeatClient>, c: SeatClient, id: nat)
    requires c.devices == []
    ensures OpenWithId(clients + [c], id) == OpenWithId(clients, id)
  {
    OpenAppend(clients, [c], id);
    OpenOne(c, id);
  }

  /** How often a device with this id was opened, or closed, by the first n inputs. */
  function OpenedBy(inputs: seq<Input>, replies: seq<Reply>, trace: seq<Seats>, n: nat, id: nat): nat
    requires n <= |replies| <= |inputs| && n <= |trace|
  {
    if n == 0 then 0
    else OpenedBy(inputs, replies, trace, n - 1, id) + Opens(trace[n - 1], inputs[n - 1], replies[n - 1], id)
  }

  function ClosedBy(inputs: seq<Input>, replies: seq<Reply>, trace: seq<Seats>, n: nat, id: nat): nat
    requires n <= |replies| <= |inputs| && n <= |trace|
  {
    if n == 0 then 0
    else ClosedBy(inputs, replies, trace, n - 1, id) + Closes(trace[n - 1], inputs[n - 1], replies[n - 1], id)
  }

  /** At every point of a run the open devices are those that were opened, less those that were closed
      singly or with their client. */
  lemma {:induction false} DevicesAccounted(inputs: seq<Input>, replies: seq<Reply>, trace: seq<Seats>, n: nat, id: nat)
    requires IsRun(inputs, replies, trace) && n <= |replies|
    ensures OpenWithId(trace[n].clients, id) + ClosedBy(inputs, replies, trace, n, id) ==
      OpenedBy(inputs, replies, trace, n, id)
  {
    hide Answers, Exclusive, Opens, Closes;
    if n > 0 {
      DevicesAccounted(inputs, replies, trace, n - 1, id);
      AnswerCounts(trace[n - 1], inputs[n - 1], replies[n - 1], trace[n], id);
    }
  }
}
