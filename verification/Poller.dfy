/**
  Channels, the epoll poller and the kernel's interest set: one channel's registration as a value,
  then the classes that keep many channels registered side by side.
  */
module Pollers {
  import opened Bytes

  type Mask = bv16

  const EPOLLIN: Mask := 0x1
  const EPOLLPRI: Mask := 0x2
  const EPOLLOUT: Mask := 0x4
  const EPOLLERR: Mask := 0x8
  const EPOLLHUP: Mask := 0x10
  const EPOLLRDHUP: Mask := 0x2000

  const NO_EVENT: Mask := 0
  const READ_EVENT: Mask := 0x3
  const WRITE_EVENT: Mask := 0x4

  // ---------------------------------------------------------------- one registration

  datatype Index = New | Added | Deleted

  datatype Operation = Add | Mod | Del

  /**
    What the channel, the poller's table and the kernel hold about one descriptor; `refused` counts
    the epoll_ctl calls that the kernel turned down.
    */
  datatype Registration = Registration(
    events: Mask, index: Index, listed: bool, kernel: Option<Mask>, refused: nat)

  const FRESH := Registration(NO_EVENT, New, false, None, 0)

  predicate IsWrite(events: Mask) { events & WRITE_EVENT != 0 }

  predicate IsRead(events: Mask) { events & READ_EVENT != 0 }

  /** The kernel adds only what is absent, and changes or deletes only what is present. */
  predicate Accepted(kernel: Option<Mask>, op: Operation)
  {
    op.Add? <==> kernel.None?
  }

  function Control(r: Registration, op: Operation): Registration
  {
    if !Accepted(r.kernel, op) then r.(refused := r.refused + 1)
    else r.(kernel := if op.Del? then None else Some(r.events))
  }

  function Update(r: Registration): Registration
  {
    if r.index != Added then Control(r.(listed := r.listed || r.index == New, index := Added), Add)
    else if r.events == NO_EVENT then Control(r, Del).(index := Deleted)
    else Control(r, Mod)
  }

  function Remove(r: Registration): Registration
  {
    var gone := r.(listed := false);
    (if r.index == Added then Control(gone, Del) else gone).(index := New)
  }

  datatype Action = AbleRead | DisableRead | AbleWrite | DisableWrite | DisableAll | RemoveIt

  function Interest(events: Mask, action: Action): Mask
  {
    match action
    case AbleRead => events | READ_EVENT
    case DisableRead => events & !READ_EVENT
    case AbleWrite => events | WRITE_EVENT
    case DisableWrite => events & !WRITE_EVENT
    case DisableAll => NO_EVENT
    case RemoveIt => events
  }

  function Act(r: Registration, action: Action): Registration
  {
    if action.RemoveIt? then Remove(r) else Update(r.(events := Interest(r.events, action)))
  }

  function ActAll(r: Registration, actions: seq<Action>): Registration
    decreases |actions|
  {
    if actions == [] then r else ActAll(Act(r, actions[0]), actions[1..])
  }

  /** Index, table and kernel agree on whether the descriptor is registered. */
  ghost predicate InStep(r: Registration)
  {
    && (r.index == Added <==> r.kernel.Some?)
    && (r.listed <==> r.index != New)
    && r.refused == 0
  }

  /** In step, and the kernel watches for exactly the events the channel asks for. */
  ghost predicate Agreement(r: Registration)
  {
    InStep(r) && (r.kernel.Some? ==> r.kernel.value == r.events)
  }

  lemma ActKeepsAgreement(r: Registration, action: Action)
    requires Agreement(r)
    ensures Agreement(Act(r, action))
  {
    hide Interest;
  }

  /** No sequence of interest changes and removals breaks the agreement or meets a refusal. */
  lemma {:induction false} AgreementKept(r: Registration, actions: seq<Action>)
    requires Agreement(r)
    ensures Agreement(ActAll(r, actions))
    decreases |actions|
  {
    hide Interest;
    if actions != [] {
      AgreementKept(Act(r, actions[0]), actions[1..]);
    }
  }

  /** Disabling everything and removing ends absent everywhere, from any state, any number of times. */
  lemma TeardownAbsent(r: Registration, actions: seq<Action>)
    requires Agreement(r)
    ensures var end := ActAll(r, actions + [DisableAll, RemoveIt]);
            end == FRESH && ActAll(end, [DisableAll, RemoveIt]) == end
  {
    AgreementKept(r, actions);
    ActAllConcat(r, actions, [DisableAll, RemoveIt]);
    var mid := ActAll(r, actions);
    assert [DisableAll, RemoveIt][1..] == [RemoveIt];
    assert ActAll(mid, [DisableAll, RemoveIt]) == ActAll(Act(mid, DisableAll), [RemoveIt]);
    assert ActAll(FRESH, [DisableAll, RemoveIt]) == ActAll(Act(FRESH, DisableAll), [RemoveIt]);
    assert [RemoveIt][1..] == [];
  }

  lemma {:induction false} ActAllConcat(r: Registration, xs: seq<Action>, ys: seq<Action>)
    ensures ActAll(r, xs + ys) == ActAll(ActAll(r, xs), ys)
    decreases |xs|
  {
    hide Act;
    if xs == [] {
      assert xs + ys == ys;
    } else {
      assert (xs + ys)[1..] == xs[1..] + ys;
      ActAllConcat(Act(r, xs[0]), xs[1..], ys);
    }
  }

  /** Without the removal, disabling everything leaves the kernel set only when it was in there. */
  lemma DisableAllAlone(r: Registration)
    requires Agreement(r)
    ensures Act(r, DisableAll).kernel.None? <==> r.index == Added
    ensures Act(r, DisableAll).kernel.Some? ==> Act(r, DisableAll).kernel.value == NO_EVENT
  {
  }

  lemma WriteInterest(events: Mask)
    ensures IsWrite(Interest(events, AbleWrite)) && !IsWrite(Interest(events, DisableWrite))
    ensures IsWrite(Interest(events, AbleRead)) == IsWrite(events)
    ensures !IsWrite(NO_EVENT)
  {
  }

  lemma ReadInterest(events: Mask)
    ensures IsRead(Interest(events, AbleRead)) && (IsRead(events) ==> events != NO_EVENT)
  {
  }

  lemma WriteLeavesRead(events: Mask)
    ensures IsRead(Interest(events, AbleWrite)) == IsRead(events)
  {
  }

  lemma UnwriteLeavesRead(events: Mask)
    ensures IsRead(Interest(events, DisableWrite)) == IsRead(events)
  {
  }

  // ---------------------------------------------------------------- dispatch

  datatype Callback = OnClose | OnError | OnRead | OnWrite

  /** When each callback is due for the events the kernel returned. */
  predicate Due(revents: Mask, callback: Callback)
  {
    match callback
    case OnClose => revents & EPOLLHUP != 0 && revents & EPOLLIN == 0
    case OnError => revents & EPOLLERR != 0
    case OnRead => revents & (EPOLLIN | EPOLLPRI | EPOLLRDHUP) != 0
    case OnWrite => revents & EPOLLOUT != 0
  }

  /** A report that meets the interest which a mutator sets runs the callback it is meant for. */
  lemma InterestMeansCallback(report: Mask)
    ensures report & Interest(NO_EVENT, AbleRead) != 0 ==> Due(report, OnRead)
    ensures report & Interest(NO_EVENT, AbleWrite) != 0 <==> Due(report, OnWrite)
  {
    ReadReport(report);
  }

  lemma ReadReport(report: Mask)
    ensures report & 0x3 != 0 ==> report & 0x2003 != 0
    ensures report & 0x1 != 0 ==> report & 0x2003 != 0
  {
  }

  /** Which callbacks a report of input, hang-up, error, urgent data and room to write is due to run. */
  lemma CallbacksDue(report: Mask)
    ensures report & 0x1 != 0 ==> Due(report, OnRead) && !Due(report, OnClose)
    ensures report & 0x1 == 0 ==> (Due(report, OnClose) <==> report & 0x10 != 0)
    ensures Due(report, OnError) <==> report & 0x8 != 0
    ensures Due(report, OnRead) <==> report & 0x2003 != 0
    ensures Due(report, OnWrite) <==> report & 0x4 != 0
  {
    ReadReport(report);
  }

  /** An error alone runs the error callback alone; no report, none. */
  lemma ErrorAlone()
    ensures forall c :: Due(EPOLLERR, c) <==> c.OnError?
    ensures forall c :: !Due(NO_EVENT, c)
  {
  }

  /** From any state that the poller keeps, the kernel ends up watching for what the channel asks for. */
  lemma KernelFollows(r: Registration, action: Action)
    requires Agreement(r) && !action.RemoveIt?
    ensures var k, events := Act(r, action).kernel, Interest(r.events, action);
            && (events != NO_EVENT ==> k == Some(events))
            && (events == NO_EVENT ==> k.None? || k == Some(NO_EVENT))
  {
    hide Interest;
  }

  /** What the mutators ask for: bits 0 and 1 are input and urgent data, bit 2 is room to write. */
  lemma InterestSet(events: Mask)
    ensures Interest(events, AbleRead) == events | 0x3
    ensures Interest(events, AbleWrite) == events | 0x4
    ensures Interest(events, DisableAll) == 0
  {
  }

  lemma InterestCleared(events: Mask)
    ensures Interest(events, DisableRead) == events & 0xFFFC
    ensures Interest(events, DisableWrite) == events & 0xFFFB
  {
    var notRead: Mask, notWrite: Mask := 0xFFFC, 0xFFFB;
    assert notRead == !READ_EVENT && notWrite == !WRITE_EVENT;
  }

  function Rank(callback: Callback): nat
  {
    match callback
    case OnClose => 0
    case OnError => 1
    case OnRead => 2
    case OnWrite => 3
  }

  lemma RankOrder()
    ensures Rank(OnClose) < Rank(OnError) < Rank(OnRead) < Rank(OnWrite)
  {
  }

  // ---------------------------------------------------------------- the classes

  class Channel {
    const fd: nat
    var events: Mask
    var revents: Mask
    var index: Index
    var tied: bool
    // The callbacks that were set.
    var handlers: set<Callback>

    constructor (fd: nat)
      ensures this.fd == fd && events == NO_EVENT && index == New && !tied && handlers == {}
    {
      this.fd := fd;
      events, revents, index, tied, handlers := NO_EVENT, NO_EVENT, New, false, {};
    }

    /**
      Runs the due callbacks in order; `alive` says whether the tied owner can still be locked. Input
      reads, room to write writes, an error is handled, and a hang-up closes once there is no input.
      */
    method HandleEvent(alive: bool) returns (fired: seq<Callback>)
      ensures tied && !alive ==> fired == []
      ensures !tied || alive ==>
                && (revents & 0x1 != 0 && OnRead in handlers ==> OnRead in fired && OnClose !in fired)
                && (revents & 0x4 != 0 && OnWrite in handlers ==> OnWrite in fired)
                && (revents & 0x8 != 0 && OnError in handlers ==> OnError in fired)
                && (revents & 0x10 != 0 && revents & 0x1 == 0 && OnClose in handlers ==> OnClose in fired)
      ensures !tied || alive ==> forall c :: c in fired <==> Due(revents, c) && c in handlers
      ensures forall i, j :: 0 <= i < j < |fired| ==> Rank(fired[i]) < Rank(fired[j])
    {
      hide Due;
      if tied && !alive {
        return [];
      }
      fired := Guarded();
      CallbacksDue(revents);
    }

    /** handleEventGuard. */
    method Guarded() returns (fired: seq<Callback>)
      ensures forall c :: c in fired <==> Due(revents, c) && c in handlers
      ensures forall i, j :: 0 <= i < j < |fired| ==> Rank(fired[i]) < Rank(fired[j])
    {
      fired := [];
      if revents & EPOLLHUP != 0 && revents & EPOLLIN == 0 {
        fired := fired + Run(OnClose);
      }
      if revents & EPOLLERR != 0 {
        fired := fired + Run(OnError);
      }
      if revents & (EPOLLIN | EPOLLPRI | EPOLLRDHUP) != 0 {
        fired := fired + Run(OnRead);
      }
      if revents & EPOLLOUT != 0 {
        fired := fired + Run(OnWrite);
      }
    }

    /** The callback, if it was set. */
    function Run(callback: Callback): seq<Callback>
      reads this
    {
      if callback in handlers then [callback] else []
    }
  }

  /** An entry of the kernel's interest set: the mask and the channel it points back to. */
  datatype Entry = Entry(mask: Mask, channel: Channel)

  class EPollPoller {
    var channels: map<nat, Channel>
    var kernel: map<nat, Entry>
    var refused: nat
    // The channels that use this poller, each with a descriptor of its own.
    ghost var users: set<Channel>

    constructor ()
      ensures Valid() && users == {} && kernel == map[]
    {
      channels, kernel, refused, users := map[], map[], 0, {};
    }

    ghost function RegistrationOf(c: Channel): Registration
      reads this, c
    {
      Registration(c.events, c.index, c.fd in channels && channels[c.fd] == c,
                   if c.fd in kernel then Some(kernel[c.fd].mask) else None, refused)
    }

    /** Distinct descriptors, and no entry that is not a user's. */
    ghost predicate Wired()
      reads this
    {
      && (forall c, d | c in users && d in users && c != d :: c.fd != d.fd)
      && (forall fd :: fd in kernel ==> kernel[fd].channel in users && kernel[fd].channel.fd == fd)
      && (forall fd :: fd in channels ==> channels[fd] in users && channels[fd].fd == fd)
    }

    ghost predicate Valid()
      reads this, users
    {
      Wired() && refused == 0 && forall c | c in users :: Agreement(RegistrationOf(c))
    }

    /** A new channel with a descriptor that no other user has. */
    ghost method Adopt(c: Channel)
      requires Valid() && c !in users && c.index == New
      requires forall d | d in users :: d.fd != c.fd
      modifies this`users
      ensures Valid() && users == old(users) + {c}
    {
      users := users + {c};
    }

    /** epoll_ctl: the kernel set changes, or the call is refused. */
    method EpollCtl(op: Operation, c: Channel)
      requires c in users && Wired()
      modifies this`kernel, this`refused
      ensures Wired()
      ensures RegistrationOf(c) == Control(old(RegistrationOf(c)), op)
      ensures forall fd :: fd != c.fd ==> (fd in kernel <==> fd in old(kernel))
      ensures forall fd :: fd != c.fd && fd in kernel ==> kernel[fd] == old(kernel)[fd]
    {
      if op.Add? != (c.fd !in kernel) {
        refused := refused + 1;
      } else if op.Del? {
        kernel := kernel - {c.fd};
      } else {
        kernel := kernel[c.fd := Entry(c.events, c)];
      }
    }

    method UpdateChannel(c: Channel)
      requires c in users && Wired() && InStep(RegistrationOf(c))
      modifies this`channels, this`kernel, this`refused, c`index
      ensures Wired() && RegistrationOf(c) == Update(old(RegistrationOf(c)))
      ensures forall d | d in users && d != c :: RegistrationOf(d) == old(RegistrationOf(d))
    {
      if c.index != Added {
        if c.index == New {
          channels := channels[c.fd := c];
        }
        c.index := Added;
        EpollCtl(Add, c);
      } else if c.events == NO_EVENT {
        EpollCtl(Del, c);
        c.index := Deleted;
      } else {
        EpollCtl(Mod, c);
      }
    }

    method RemoveChannel(c: Channel)
      requires c in users && Wired() && InStep(RegistrationOf(c))
      modifies this`channels, this`kernel, this`refused, c`index
      ensures Wired() && RegistrationOf(c) == Remove(old(RegistrationOf(c)))
      ensures forall d | d in users && d != c :: RegistrationOf(d) == old(RegistrationOf(d))
    {
      channels := channels - {c.fd};
      if c.index == Added {
        EpollCtl(Del, c);
      }
      c.index := New;
    }

    /** A channel changes its interest, or leaves, and tells the poller: nobody else is affected. */
    method Perform(c: Channel, action: Action)
      requires Valid() && c in users
      modifies this`channels, this`kernel, this`refused, c`events, c`index
      ensures Valid() && RegistrationOf(c) == Act(old(RegistrationOf(c)), action)
      ensures forall d | d in users && d != c :: RegistrationOf(d) == old(RegistrationOf(d))
    {
      hide Interest, Update, Remove;
      ActKeepsAgreement(RegistrationOf(c), action);
      if action.RemoveIt? {
        RemoveChannel(c);
      } else {
        c.events := Interest(c.events, action);
        UpdateChannel(c);
      }
    }

    /** epoll_wait reports registered descriptors, each at most once, with the events that are ready. */
    method FillActiveChannels(ready: seq<(nat, Mask)>) returns (active: seq<Channel>)
      requires Valid()
      requires forall i | 0 <= i < |ready| :: ready[i].0 in kernel
      requires forall i, j | 0 <= i < j < |ready| :: ready[i].0 != ready[j].0
      modifies users`revents
      ensures Valid() && |active| == |ready|
      ensures forall i | 0 <= i < |ready| ::
                && active[i] in users && active[i].fd == ready[i].0 && active[i].revents == ready[i].1
                && active[i].index == Added && channels[active[i].fd] == active[i]
    {
      active := [];
      for i := 0 to |ready|
        invariant Valid() && |active| == i
        invariant forall k | 0 <= k < i ::
                    active[k] == kernel[ready[k].0].channel && active[k].revents == ready[k].1
      {
        var channel := kernel[ready[i].0].channel;
        channel.revents := ready[i].1;
        active := active + [channel];
      }
      forall i | 0 <= i < |ready|
        ensures active[i].index == Added && channels[active[i].fd] == active[i]
      {
        assert Agreement(RegistrationOf(active[i]));
      }
    }
  }
}
