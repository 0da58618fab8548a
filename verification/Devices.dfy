/**
 * The device list of the library: activation, removal, session files, USB hotplug with its
 * reconnect window, delayed destruction, exit. Every public call, hotplug callback and round of the
 * hotplug thread is one atomic step; what drivers answer is a parameter of the step.
 */
module Devices {
  datatype Option<T> = None | Some(value: T)

  /** A device instance (a struct sr_dev_inst pointer). */
  type Id = nat

  datatype Port = Port(bus: nat, address: nat)

  /** The fields of struct sr_dev_inst that decide identity. */
  datatype Device = Device(handle: nat, driver: nat, devType: nat, conn: Option<Port>, initializing: bool)

  const DEV_TYPE_USB: nat := 3
  const NULL_HANDLE: nat := 0
  const CHECK_DEV_RECONNECT_TIMES: nat := 5

  /** A libusb device. */
  datatype Usb = Usb(handle: nat, port: Port)

  datatype Status = SrOk | SrErr | SrErrArg | SrErrCallStatus | SrErrHaveDone

  /** usb_device_matches_dev_inst */
  predicate UsbMatches(dev: Device, usb: Usb) {
    dev.handle == usb.handle || (dev.devType == DEV_TYPE_USB && dev.conn == Some(usb.port))
  }

  /** device_instance_matches, for two different instances. */
  predicate InstanceMatches(a: Device, b: Device) {
    || a.handle == b.handle
    || (a.driver == b.driver && a.devType == b.devType && a.devType == DEV_TYPE_USB && a.conn.Some? && a.conn == b.conn)
  }

  /** Which listed device a USB device is: the one of that handle, or else the one of a USB type (3) at its
      bus and address. */
  lemma UsbMatchesIff(dev: Device, usb: Usb)
    ensures dev.handle == usb.handle ==> UsbMatches(dev, usb)
    ensures dev.handle != usb.handle && (dev.devType != 3 || dev.conn == None) ==> !UsbMatches(dev, usb)
    ensures dev.handle != usb.handle && dev.devType == 3 && dev.conn.Some? ==>
              (UsbMatches(dev, usb) <==>
                  dev.conn.value.bus == usb.port.bus && dev.conn.value.address == usb.port.address)
  {
  }

  /** Which instances are the same device: those of one handle, or those of one driver, both of the USB
      type, at one bus and address. */
  lemma InstanceMatchesIff(a: Device, b: Device)
    ensures a.handle == b.handle ==> InstanceMatches(a, b)
    ensures InstanceMatches(a, b) == InstanceMatches(b, a)
    ensures a.handle != b.handle && (a.driver != b.driver || a.devType != 3 || b.devType != 3) ==>
              !InstanceMatches(a, b)
    ensures a.handle != b.handle && (a.conn == None || b.conn == None) ==> !InstanceMatches(a, b)
    ensures a.handle != b.handle && a.driver == b.driver && a.devType == b.devType == 3 && a.conn.Some?
              && b.conn.Some? ==>
              (InstanceMatches(a, b)
               <==> a.conn.value.bus == b.conn.value.bus && a.conn.value.address == b.conn.value.address)
  {
  }

  /** The elements of a list. */
  function Elements(s: seq<Id>): set<Id> {
    set d | d in s
  }

  predicate NoDuplicates(s: seq<Id>) {
    forall i, j :: 0 <= i < j < |s| ==> s[i] != s[j]
  }

  /** g_slist_remove */
  function Remove(s: seq<Id>, d: Id): seq<Id> {
    if s == [] then [] else if s[0] == d then s[1..] else [s[0]] + Remove(s[1..], d)
  }

  lemma {:induction false} RemoveOne(s: seq<Id>, d: Id)
    requires NoDuplicates(s) && d in s
    ensures NoDuplicates(Remove(s, d)) && forall x :: x in Remove(s, d) <==> x in s && x != d
    decreases s
  {
    var t := s[1..];
    assert forall x :: x in s <==> x == s[0] || x in t;
    assert s[0] !in t;
    if s[0] == d {
    } else {
      RemoveOne(t, d);
      var r := Remove(t, d);
      assert forall x :: x in [s[0]] + r <==> x == s[0] || x in r;
      forall i, j | 0 <= i < j < |[s[0]] + r| ensures ([s[0]] + r)[i] != ([s[0]] + r)[j] {
        assert ([s[0]] + r)[j] == r[j - 1] && r[j - 1] in r;
      }
    }
  }

  /** The first occurrence goes, the others keep their order. */
  lemma {:induction false} RemoveFirst(s: seq<Id>, d: Id, i: nat)
    requires i <= |s| && (forall k :: 0 <= k < i ==> s[k] != d) && (i < |s| ==> s[i] == d)
    ensures Remove(s, d) == if i < |s| then s[..i] + s[i + 1..] else s
    decreases i
  {
    if i == 0 {
    } else {
      RemoveFirst(s[1..], d, i - 1);
      assert s == [s[0]] + s[1..];
    }
  }

  class LibContext {
    var up: bool                       // sr_ctx != NULL
    var info: map<Id, Device>
    var devices: seq<Id>               // device_list
    var active: Option<Id>             // actived_device_instance
    var delayed: bool                  // is_delay_destory_actived_device
    var collecting: bool               // collect_thread != NULL
    var attachEvent: bool
    var detachEvent: bool
    var waiting: bool                  // is_waitting_reconnect
    var reconnectTimes: nat
    var detachHandle: Option<Usb>
    var transactionId: nat
    var handledTransaction: nat        // cur_trans_id of the hotplug thread
    ghost var created: set<Id>
    ghost var destroyed: set<Id>

    /** The devices that are there: those listed, and one that waits for its destruction. */
    ghost function Live(): set<Id>
      reads this`devices, this`delayed, this`active
    {
      Elements(devices) + (if delayed && active.Some? then {active.value} else {})
    }

    /** Created devices are the live ones and the destroyed ones, and none is both. */
    ghost predicate Conserved()
      reads this`devices, this`delayed, this`active, this`info, this`created, this`destroyed
    {
      && NoDuplicates(devices)
      && Live() !! destroyed && Live() + destroyed == created
      && created == info.Keys
    }

    /** The active device is live, and it is listed exactly when it does not wait for destruction. */
    ghost predicate ActiveOk()
      reads this`devices, this`delayed, this`active
    {
      && (active.Some? ==> active.value in Live() && (active.value in devices <==> !delayed))
      && (delayed ==> active.Some?)
    }

    /** No two listed devices match. */
    ghost predicate Apart()
      reads this`devices, this`info
    {
      forall a, b :: a in devices && b in devices && a != b && a in info && b in info ==>
          !InstanceMatches(info[a], info[b])
    }

    ghost predicate Valid()
      reads this`devices, this`delayed, this`active, this`info, this`created, this`destroyed
    {
      Conserved() && ActiveOk() && Apart()
    }

    constructor ()
      ensures Valid() && !up && devices == [] && active == None && created == {} && destroyed == {}
    {
      up, info, devices, active, delayed, collecting := false, map[], [], None, false, false;
      attachEvent, detachEvent, waiting, reconnectTimes := false, false, false, 0;
      detachHandle, transactionId, handledTransaction := None, 0, 0;
      created, destroyed := {}, {};
    }

    /** destroy_device_instance. A device is destroyed only while it is live, and `ok` is what the
        driver answers. */
    method Destroy(d: Id, ok: bool)
      requires d in created && d !in destroyed
      modifies this`destroyed
      ensures destroyed == if ok then old(destroyed) + {d} else old(destroyed)
    {
      if ok {
        destroyed := destroyed + {d};
      }
    }

    /** The first listed device with this handle, |devices| if there is none. */
    method FindHandle(handle: nat) returns (i: nat)
      requires Conserved()
      ensures i <= |devices|
      ensures i < |devices| ==> devices[i] in info && info[devices[i]].handle == handle
      ensures forall k :: 0 <= k < i ==> devices[k] in info && info[devices[k]].handle != handle
    {
      i := 0;
      while i < |devices|
        invariant 0 <= i <= |devices|
        invariant forall k :: 0 <= k < i ==> devices[k] in info && info[devices[k]].handle != handle
      {
        assert devices[i] in Live();
        if info[devices[i]].handle == handle {
          return;
        }
        i := i + 1;
      }
    }

    /** The first listed device that matches the USB device, |devices| if there is none. */
    method FindUsb(usb: Usb) returns (i: nat)
      requires Conserved()
      ensures i == FirstUsb(devices, info, usb)
      ensures i < |devices| ==> devices[i] in info && UsbMatches(info[devices[i]], usb)
      ensures forall k :: 0 <= k < i ==> devices[k] in info && !UsbMatches(info[devices[k]], usb)
    {
      assert devices[0..] == devices;
      i := 0;
      while i < |devices|
        invariant 0 <= i <= |devices|
        invariant forall k :: 0 <= k < i ==> devices[k] in info && !UsbMatches(info[devices[k]], usb)
        invariant FirstUsb(devices, info, usb) == i + FirstUsb(devices[i..], info, usb)
      {
        assert devices[i] in Live();
        assert devices[i..][1..] == devices[i + 1..];
        if UsbMatches(info[devices[i]], usb) {
          return;
        }
        i := i + 1;
      }
    }

    /** sr_usb_device_is_exists */
    method UsbExists(usb: Usb) returns (found: bool)
      requires Conserved()
      ensures found == !Unknown(usb)
    {
      var i := FindUsb(usb);
      found := i < |devices|;
      if found {
        assert devices[i] in devices;
      } else {
        forall d | d in devices && d in info ensures !UsbMatches(info[d], usb) {
          var k :| 0 <= k < |devices| && devices[k] == d;
        }
      }
    }

    /** No listed device matches the USB device. */
    ghost predicate Unknown(usb: Usb)
      reads this`devices, this`info
    {
      forall d :: d in devices && d in info ==> !UsbMatches(info[d], usb)
    }

    /** Destroy the active device that waits for it. */
    method DestroyDelayed(ok: bool)
      requires Valid() && active.Some? && delayed
      modifies this`destroyed, this`active, this`delayed
      ensures Valid()
      ensures ok ==> active == None && !delayed && destroyed == old(destroyed) + {old(active).value}
      ensures !ok ==> active == old(active) && delayed && destroyed == old(destroyed)
    {
      Destroy(active.value, ok);
      if ok {
        active := None;
        delayed := false;
      }
    }

    /** ds_active_device. The parameters say what the drivers answer to destroying the waiting device,
        closing the previous one, opening the new one and going back to an old one. */
    method ActiveDevice(handle: nat, destroyOk: bool, closeOk: bool, openOk: bool, reopenOk: bool)
        returns (status: Status)
      requires Valid()
      modifies this`destroyed, this`active, this`delayed
      ensures Valid()
      ensures handle == 0 ==> status == SrErrArg
      // nothing is destroyed but the device that waited for it
      ensures destroyed == if old(delayed) && !delayed then old(destroyed) + {old(active).value} else old(destroyed)
      // refused: nothing changes
      ensures var admitted := handle != NULL_HANDLE && !collecting
                && (old(active) == None || (if old(delayed) then destroyOk else closeOk));
              && (!admitted ==>
                    && active == old(active) && delayed == old(delayed)
                    && status == if handle == NULL_HANDLE then SrErrArg else if collecting then SrErrCallStatus
                        else SrErr)
              && (admitted ==> !delayed)
              && (admitted && !Listed(handle) ==>
                  status == SrErrCallStatus && active == if old(delayed) then None else old(active))
              // success: a listed device of that handle is active
              && (admitted && Listed(handle) && openOk ==>
                    && status == SrOk && active.Some? && active.value in devices
                    && active.value in info && info[active.value].handle == handle)
              // failure: back to the previous device, or else to the first one
              && (admitted && Listed(handle) && !openOk ==>
                    && status == (if reopenOk then SrOk else SrErr)
                    && active == if old(active).Some? && !old(delayed) then old(active) else Some(devices[0]))
    {
      if handle == NULL_HANDLE {
        return SrErrArg;
      }
      if collecting {
        return SrErrCallStatus;
      }
      var oldDev: Option<Id> := None;
      if active.Some? {
        if delayed {
          DestroyDelayed(destroyOk);
          if !destroyOk {
            return SrErr;
          }
        } else {
          if !closeOk {
            return SrErr;
          }
          oldDev := active;
        }
      }
      var i := FindHandle(handle);
      if i == |devices| {
        return SrErrCallStatus;
      }
      assert devices[i] in devices && devices[i] in Live();
      if openOk {
        active := Some(devices[i]);
        return SrOk;
      }
      if devices != [] && oldDev == None {
        assert devices[0] in devices && devices[0] in Live();
        oldDev := Some(devices[0]);
      }
      status := SrErr;
      if oldDev.Some? {
        active := oldDev;
        status := if reopenOk then SrOk else SrErr;
      }
    }

    /** ds_remove_device. Status and effects, for every handle: the waiting device of that handle is
        destroyed, and then the first listed one, which leaves the list. */
    method RemoveDevice(handle: nat, delayedOk: bool, destroyOk: bool) returns (status: Status)
      requires Valid()
      modifies this`destroyed, this`active, this`delayed, this`devices
      ensures Valid()
      // a waiting device of that handle is destroyed first
      ensures var admitted, hit := handle != NULL_HANDLE && !old(Busy(handle)), old(delayed) && old(ActiveHas(handle));
              && (status == SrErrArg <==> handle == NULL_HANDLE)
              && (status == SrOk <==> admitted && (hit ==> delayedOk) && old(Listed(handle)) && destroyOk)
              && (status == SrErr <==> admitted && ((hit && !delayedOk) || (old(Listed(handle)) && !destroyOk)))
              && (admitted && hit && delayedOk ==> !delayed && active == None && old(active).value in destroyed)
              && (!(admitted && hit && delayedOk) ==> delayed == old(delayed))
      // success: exactly one listed device of that handle is destroyed and leaves the list
      ensures status == SrOk ==> exists d ::
                d in old(devices) && info[d].handle == handle
                && devices == Remove(old(devices), d) && d in destroyed && d !in old(destroyed)
                && (old(!delayed) ==>
                    destroyed == old(destroyed) + {d} && active == if old(active) == Some(d) then None else old(active))
      ensures status != SrOk ==> devices == old(devices)
      ensures old(destroyed) <= destroyed
    {
      if handle == NULL_HANDLE {
        return SrErrArg;
      }
      assert active.Some? ==> active.value in Live();
      if active.Some? && info[active.value].handle == handle && collecting {
        return SrErrCallStatus;
      }
      if active.Some? && delayed && info[active.value].handle == handle {
        DestroyDelayed(delayedOk);
        if !delayedOk {
          return SrErr;
        }
      }
      status := RemoveListed(handle, destroyOk);
    }

    /** The loop of ds_remove_device: the first listed device of that handle goes. */
    method RemoveListed(handle: nat, destroyOk: bool) returns (status: Status)
      requires Valid()
      modifies this`destroyed, this`active, this`devices
      ensures Valid()
      ensures status == if !old(Listed(handle)) then SrErrCallStatus else if destroyOk then SrOk else SrErr
      ensures status == SrOk ==> exists d ::
                d in old(devices) && d in info && info[d].handle == handle
                && devices == Remove(old(devices), d) && d !in old(destroyed) && destroyed == old(destroyed) + {d}
                && active == if old(active) == Some(d) then None else old(active)
      ensures status != SrOk ==> devices == old(devices) && destroyed == old(destroyed) && active == old(active)
    {
      var i := FindHandle(handle);
      if i == |devices| {
        return SrErrCallStatus;
      }
      var d := devices[i];
      assert d in devices && d in Live();
      Destroy(d, destroyOk);
      if !destroyOk {
        return SrErr;
      }
      RemoveOne(devices, d);
      devices := Remove(devices, d);
      if active == Some(d) {
        active := None;
      }
      status := SrOk;
    }

    /** A listed device has this handle. */
    ghost predicate Listed(handle: nat)
      reads this`devices, this`info
    {
      exists d :: d in devices && d in info && info[d].handle == handle
    }

    ghost predicate ActiveHas(handle: nat)
      reads this`active, this`info
    {
      active.Some? && active.value in info && info[active.value].handle == handle
    }

    /** The active device has this handle and is collecting. */
    ghost predicate Busy(handle: nat)
      reads this`active, this`info, this`collecting
    {
      collecting && ActiveHas(handle)
    }

    /** A new instance: not seen before. */
    method Create(d: Id, dev: Device)
      requires d !in created && created == info.Keys
      modifies this`created, this`info
      ensures created == old(created) + {d} && info == old(info)[d := dev]
    {
      created := created + {d};
      info := info[d := dev];
    }

    /** ds_device_from_file. A virtual device has its own address as handle, so it is no listed
        device's; `readable` says whether the file could be read. */
    method DeviceFromFile(d: Id, dev: Device, readable: bool) returns (status: Status)
      requires Valid() && d !in created
      requires dev.devType != DEV_TYPE_USB && forall x :: x in devices && x in info ==> info[x].handle != dev.handle
      modifies this`created, this`info, this`devices
      ensures Valid()
      ensures if readable then status == SrOk && devices == old(devices) + [d] && created == old(created) + {d}
              else status == SrErr && devices == old(devices) && created == old(created)
      ensures info == if readable then old(info)[d := dev] else old(info)
    {
      if !readable {
        return SrErr;
      }
      Create(d, dev);
      devices := devices + [d];
      status := SrOk;
    }

    /** append_device_instance_if_new. A destroy called here is taken to succeed. */
    method AppendIfNew(d: Id, dev: Device) returns (appended: bool)
      requires Valid() && d !in created
      modifies this`created, this`info, this`devices, this`destroyed
      ensures Valid() && created == old(created) + {d} && info == old(info)[d := dev]
      ensures appended <==> (!dev.initializing && IsNew(old(devices), old(info), dev))
      ensures if appended then devices == old(devices) + [d] && destroyed == old(destroyed)
              else devices == old(devices) && destroyed == old(destroyed) + {d}
    {
      if dev.initializing {
        CreateAndDestroy(d, dev);
        return false;
      }
      appended := NoneMatches(dev);
      if appended {
        AppendNew(d, dev);
      } else {
        CreateAndDestroy(d, dev);
      }
    }

    /** The search for a listed device that matches. */
    method NoneMatches(dev: Device) returns (isNew: bool)
      requires Valid()
      ensures isNew == IsNew(devices, info, dev)
    {
      var i := 0;
      while i < |devices|
        invariant 0 <= i <= |devices|
        invariant forall k :: 0 <= k < i ==> devices[k] in info && !InstanceMatches(info[devices[k]], dev)
      {
        assert devices[i] in Live();
        if InstanceMatches(info[devices[i]], dev) {
          return false;
        }
        i := i + 1;
      }
      isNew := true;
    }

    /** An instance the list does not want. */
    method CreateAndDestroy(d: Id, dev: Device)
      requires Valid() && d !in created
      modifies this`created, this`info, this`destroyed
      ensures Valid() && created == old(created) + {d} && info == old(info)[d := dev]
      ensures destroyed == old(destroyed) + {d}
    {
      Create(d, dev);
      Destroy(d, true);
    }

    /** process_attach_event: the instances the drivers' scans returned. Those taken in join the list in
        order, the others are destroyed. */
    method ProcessAttach(scanned: seq<(Id, Device)>) returns (num: nat)
      requires Valid() && FreshIds(scanned, created)
      modifies this`created, this`info, this`devices, this`destroyed
      ensures Valid() && num == |devices| - |old(devices)|
      ensures devices == AfterScan(old(devices), old(info), scanned) && info == WithScanned(old(info), scanned)
      ensures created == old(created) + ScannedIds(scanned)
      ensures destroyed == old(destroyed) + (ScannedIds(scanned) - Elements(devices))
    {
      ListedCreated();
      hide Valid, IsNew;
      num := 0;
      var i := 0;
      while i < |scanned|
        invariant 0 <= i <= |scanned| && Valid()
        invariant created == old(created) + ScannedIds(scanned[..i]) && Elements(devices) <= created
        invariant devices == AfterScan(old(devices), old(info), scanned[..i])
        invariant info == WithScanned(old(info), scanned[..i])
        invariant num == |devices| - |old(devices)|
        invariant destroyed == old(destroyed) + (ScannedIds(scanned[..i]) - Elements(devices))
      {
        ScannedStep(scanned, i);
        ghost var was, ids := devices, ScannedIds(scanned[..i]);
        var appended := AppendIfNew(scanned[i].0, scanned[i].1);
        if appended {
          num := num + 1;
        }
        OneMoreScanned(was, devices, ids, scanned[i].0, appended);
        assert scanned[..i + 1][..i] == scanned[..i];
        i := i + 1;
      }
      assert scanned[..i] == scanned;
    }

    lemma ListedCreated()
      requires Valid()
      ensures Elements(devices) <= created
    {
      assert Elements(devices) <= Live();
    }

    /** update_device_handle: the instance of a device that lost contact takes over handle, bus and
        address of the device that came back. The caller has checked that no listed device matches
        the new one, which is what keeps the list apart. */
    method UpdateHandle(oldUsb: Usb, newUsb: Usb, closeOk: bool) returns (ok: bool)
      requires Valid() && Unknown(newUsb)
      modifies this`info, this`transactionId
      ensures Valid() && info.Keys == old(info).Keys
      ensures var r := ReconnectOf(devices, old(info), active, oldUsb, closeOk);
              && ok == r.Some?
              && info == InfoReconnected(old(info), r, newUsb)
              && transactionId == old(transactionId) + (if r.Some? && active == r then 1 else 0)
    {
      var i := FindLost(oldUsb);
      if i == |devices| || (active == Some(devices[i]) && !closeOk) {
        return false;
      }
      TakeOver(devices[i], newUsb);
      if active == Some(devices[i]) {
        transactionId := transactionId + 1;
      }
      ok := true;
    }

    /** The first listed device on the bus that matches, |devices| if there is none. */
    method FindLost(usb: Usb) returns (i: nat)
      requires Conserved()
      ensures i == FirstLost(devices, info, usb)
    {
      assert devices[0..] == devices;
      i := 0;
      while i < |devices|
        invariant 0 <= i <= |devices|
        invariant FirstLost(devices, info, usb) == i + FirstLost(devices[i..], info, usb)
      {
        assert devices[i] in Live();
        assert devices[i..][1..] == devices[i + 1..];
        if info[devices[i]].conn.Some? && UsbMatches(info[devices[i]], usb) {
          return;
        }
        i := i + 1;
      }
    }

    /** A listed device takes over handle, bus and address of an unknown USB device. */
    method TakeOver(d: Id, usb: Usb)
      requires Valid() && Unknown(usb) && d in devices && d in info && info[d].conn.Some?
      modifies this`info
      ensures Valid() && info.Keys == old(info).Keys && info == old(info)[d := Reconnected(old(info)[d], usb)]
      ensures info[d].handle == usb.handle && info[d].conn == Some(usb.port) && UsbMatches(info[d], usb)
      ensures info[d].driver == old(info)[d].driver && info[d].devType == old(info)[d].devType
    {
      info := info[d := Reconnected(info[d], usb)];
    }

    /** The listed device that an unknown one is taken for. */
    ghost function Reconnects(closeOk: bool): Option<Id>
      reads this`devices, this`info, this`active, this`waiting, this`detachHandle
    {
      if waiting && detachHandle.Some? then ReconnectOf(devices, info, active, detachHandle.value, closeOk) else None
    }

    lemma ValidConserved()
      requires Valid()
      ensures Conserved()
    {
    }

    /** hotplug_event_listen_callback for an attached device. */
    method HotplugAttach(usb: Usb, closeOk: bool)
      requires Valid()
      modifies this`info, this`transactionId, this`detachHandle, this`attachEvent, this`waiting
      ensures Valid() && info.Keys == old(info).Keys
      // a known device changes nothing
      ensures !old(Unknown(usb)) ==>
                info == old(info) && transactionId == old(transactionId) && detachHandle == old(detachHandle)
                                     && waiting == old(waiting) && attachEvent == old(attachEvent)
      // an unknown one is the lost device come back, if one is waited for, and else a new one
      ensures old(Unknown(usb)) ==>
                var r := old(Reconnects(closeOk));
                && info == InfoReconnected(old(info), r, usb)
                && transactionId == old(transactionId) + (if r.Some? && active == r then 1 else 0)
                && attachEvent == (old(attachEvent) || r == None)
                && !waiting && detachHandle == if old(waiting) then None else old(detachHandle)
    {
      hide Valid, Unknown, ReconnectOf, Reconnected;
      ValidConserved();
      var found := UsbExists(usb);
      if found {
        return;
      }
      var done := false;
      if waiting {
        if detachHandle.Some? {
          done := UpdateHandle(detachHandle.value, usb, closeOk);
          detachHandle := None;
        }
      }
      if !done {
        attachEvent := true;
      }
      waiting := false;
    }

    /** hotplug_event_listen_callback for a detached device; `ownThread` if it runs on the collecting
        thread, which then is only told to stop. */
    method HotplugDetach(usb: Usb, ownThread: bool) returns (kept: bool)
      requires Valid()
      modifies this`collecting, this`waiting, this`reconnectTimes, this`detachHandle
      ensures Valid()
      ensures kept ==> detachHandle == old(detachHandle) && waiting == old(waiting) && collecting == old(collecting)
      ensures !kept ==> waiting && reconnectTimes == 0 && detachHandle == Some(usb)
      // the collecting of the device that is gone is stopped, except by itself
      ensures var stops := !kept && !ownThread && active.Some? && active.value in info
                && UsbMatches(info[active.value], usb);
              collecting == (old(collecting) && !stops)
      ensures kept <==> old(detachHandle).Some? && !Unknown(old(detachHandle).value) && Unknown(usb)
    {
      if detachHandle.Some? {
        var pending := UsbExists(detachHandle.value);
        var known := UsbExists(usb);
        if pending && !known {
          return true;
        }
      }
      if active.Some? {
        assert active.value in Live();
        if UsbMatches(info[active.value], usb) && collecting && !ownThread {
          collecting := false;
        }
      }
      waiting := true;
      reconnectTimes := 0;
      detachHandle := Some(usb);
      kept := false;
    }

    /** process_detach_event: the detached device leaves the list; it is destroyed at once, unless it
        is the active one. */
    method ProcessDetach(destroyOk: bool)
      requires Valid()
      modifies this`detachHandle, this`delayed, this`destroyed, this`devices
      ensures Valid() && detachHandle == None
      ensures Detached(DetachOf(old(devices), info, active, old(detachHandle), destroyOk),
                       old(devices), old(destroyed), old(delayed))
    {
      if detachHandle == None {
        return;
      }
      var usb := detachHandle.value;
      detachHandle := None;
      var i := FindUsb(usb);
      if i == |devices| {
        return;
      }
      TakeOff(devices[i], destroyOk);
    }

    /** A device that is gone leaves the list; the active one is left to be destroyed later. */
    method TakeOff(d: Id, destroyOk: bool)
      requires Valid() && d in devices
      modifies this`delayed, this`destroyed, this`devices
      ensures Valid()
      ensures Detached(if active == Some(d) then Waits(d) else if destroyOk then Gone(d) else Kept,
                       old(devices), old(destroyed), old(delayed))
    {
      assert d in Live();
      RemoveOne(devices, d);
      if active == Some(d) {
        delayed := true;
      } else {
        Destroy(d, destroyOk);
        if !destroyOk {
          return;
        }
      }
      devices := Remove(devices, d);
    }

    /** The list and the devices destroyed are what the detach makes of the given ones. */
    ghost predicate Detached(r: Detach, devices: seq<Id>, destroyed: set<Id>, delayed: bool)
      reads this`devices, this`destroyed, this`delayed
    {
      match r
      case Kept => this.devices == devices && this.destroyed == destroyed && this.delayed == delayed
      case Waits(d) => this.devices == Remove(devices, d) && this.destroyed == destroyed && this.delayed
      case Gone(d) => this.devices == Remove(devices, d) && this.destroyed == destroyed + {d} && this.delayed == delayed
    }

    /** The list after the attach that is due, if one is. */
    ghost function ListAfter(scanned: seq<(Id, Device)>): seq<Id>
      reads this`devices, this`info, this`attachEvent
    {
      if attachEvent then AfterScan(devices, info, scanned) else devices
    }

    ghost function InfoAfter(scanned: seq<(Id, Device)>): map<Id, Device>
      reads this`info, this`attachEvent
    {
      if attachEvent then WithScanned(info, scanned) else info
    }

    ghost function DestroyedAfter(scanned: seq<(Id, Device)>): set<Id>
      reads this`devices, this`info, this`attachEvent, this`destroyed
    {
      if attachEvent then destroyed + (ScannedIds(scanned) - Elements(ListAfter(scanned))) else destroyed
    }

    /** What the detach that is due comes to. */
    ghost function DetachAfter(scanned: seq<(Id, Device)>, destroyOk: bool): Detach
      reads this`devices, this`info, this`attachEvent, this`detachEvent, this`active, this`detachHandle
    {
      if detachEvent then DetachOf(ListAfter(scanned), InfoAfter(scanned), active, detachHandle, destroyOk) else Kept
    }

    /** The events that are due in a round of the hotplug thread: first the attach, then the detach. */
    method HandleEvents(scanned: seq<(Id, Device)>, destroyOk: bool)
      requires Valid() && FreshIds(scanned, created)
      modifies this`created, this`info, this`devices, this`destroyed, this`detachHandle, this`delayed,
                this`attachEvent, this`detachEvent
      ensures Valid() && !attachEvent && !detachEvent
      ensures Detached(old(DetachAfter(scanned, destroyOk)), old(ListAfter(scanned)), old(DestroyedAfter(scanned)),
                old(delayed))
      ensures info == old(InfoAfter(scanned)) && detachHandle == if old(detachEvent) then None else old(detachHandle)
      ensures created == if old(attachEvent) then old(created) + ScannedIds(scanned) else old(created)
    {
      hide Valid, ScannedIds, FreshIds, Remove, AfterScan, WithScanned, DetachOf;
      if attachEvent {
        var _ := ProcessAttach(scanned);
        attachEvent := false;
      }
      if detachEvent {
        ProcessDetach(destroyOk);
        detachEvent := false;
      }
    }

    /** One round of the hotplug thread. */
    method Tick(scanned: seq<(Id, Device)>, destroyOk: bool) returns (reopen: bool)
      requires Valid() && FreshIds(scanned, created)
      modifies this
      ensures Valid() && active == old(active) && collecting == old(collecting) && up == old(up)
      ensures old(destroyed) <= destroyed
      // the events that were due
      ensures !attachEvent
      ensures Detached(old(DetachAfter(scanned, destroyOk)), old(ListAfter(scanned)), old(DestroyedAfter(scanned)),
                old(delayed))
      ensures info == old(InfoAfter(scanned)) && detachHandle == if old(detachEvent) then None else old(detachHandle)
      ensures created == if old(attachEvent) then old(created) + ScannedIds(scanned) else old(created)
      // the fifth round without the device makes it detached
      ensures detachEvent <==> old(waiting) && old(reconnectTimes) + 1 == 5
      ensures waiting <==> old(waiting) && old(reconnectTimes) + 1 != 5
      ensures reconnectTimes == old(reconnectTimes) + (if old(waiting) then 1 else 0)
      // a reconnect that no round has seen yet
      ensures reopen <==> old(transactionId) != old(handledTransaction) && active.Some?
      ensures transactionId == old(transactionId) == handledTransaction
    {
      hide Valid;
      hide ScannedIds;
      hide FreshIds;
      HandleEvents(scanned, destroyOk);
      if waiting {
        reconnectTimes := reconnectTimes + 1;
        if reconnectTimes == CHECK_DEV_RECONNECT_TIMES {
          detachEvent := true;
          waiting := false;
        }
      }
      reopen := false;
      if transactionId != handledTransaction {
        handledTransaction := transactionId;
        reopen := active.Some?;
      }
    }

    /** Two rounds, and no reconnect between them: a device that lost contact and came back is opened again
        in the first of them only. */
    method TwoRounds(scanned: seq<(Id, Device)>, scanned2: seq<(Id, Device)>, destroyOk: bool)
        returns (first: bool, second: bool)
      requires Valid() && FreshIds(scanned, created) && FreshIds(scanned2, created + ScannedIds(scanned))
      modifies this
      ensures Valid() && active == old(active)
      ensures first <==> old(transactionId) != old(handledTransaction) && active.Some?
      ensures !second
    {
      hide Valid, ScannedIds, AfterScan, WithScanned, DetachOf, Remove;
      first := Tick(scanned, destroyOk);
      second := Tick(scanned2, destroyOk);
    }

    /** An active device comes back, and two rounds follow: it is opened again exactly once. */
    method ReopenedOnce(usb: Usb, closeOk: bool) returns (first: bool, second: bool)
      requires Valid() && transactionId == handledTransaction && !attachEvent && !detachEvent
      modifies this
      ensures Valid() && !second
      ensures first <==> active.Some? && old(Unknown(usb)) && old(Reconnects(closeOk)) == active
    {
      hide Valid, ReconnectOf, Unknown, AfterScan, WithScanned, DetachOf, Remove;
      HotplugAttach(usb, closeOk);
      first, second := TwoRounds([], [], true);
    }

    /** The reconnect window: nothing happens to a device that lost contact for four rounds, the fifth one
        makes it detached. */
    method Countdown(rounds: nat)
      requires Valid() && waiting && reconnectTimes == 0 && !attachEvent && !detachEvent && rounds <= 5
      modifies this
      ensures Valid() && devices == old(devices) && info == old(info) && destroyed == old(destroyed)
      ensures detachHandle == old(detachHandle)
      ensures waiting == (rounds < 5) && detachEvent == (rounds == 5)
    {
      hide Valid;
      var i := 0;
      while i < rounds
        invariant 0 <= i <= rounds && Valid() && !attachEvent
        invariant devices == old(devices) && info == old(info) && destroyed == old(destroyed)
        invariant detachHandle == old(detachHandle) && reconnectTimes == i
        invariant waiting == (i < 5) && detachEvent == (i == 5)
      {
        var _ := Tick([], true);
        i := i + 1;
      }
    }

    /** Destroy the listed devices, as far as the drivers comply. */
    method DestroyListed(failAt: Option<nat>)
      requires NoDuplicates(devices) && Elements(devices) <= created && Elements(devices) !! destroyed
      modifies this`destroyed
      ensures destroyed == old(destroyed) + Elements(devices[..Reached(failAt, devices)])
    {
      var i := 0;
      while i < |devices|
        invariant 0 <= i <= |devices|
        invariant destroyed == old(destroyed) + Elements(devices[..i])
        invariant failAt.Some? && failAt.value < |devices| ==> i <= failAt.value
      {
        PrefixElements(devices, i);
        assert devices[i] in Elements(devices);
        Destroy(devices[i], failAt != Some(i));
        if failAt == Some(i) {
          return;
        }
        i := i + 1;
      }
    }

    /** The active device could be closed, and destroyed if it was waiting for that. */
    ghost predicate Released(closeOk: bool, delayedOk: bool)
      reads this`active, this`delayed
    {
      (active.Some? ==> closeOk) && (delayed ==> delayedOk)
    }

    /** ds_lib_exit. With drivers that destroy what they are told to, nothing is left alive. The active
        pointer is not cleared for a listed device, so it is good no more. `failAt` is the list
        position where a destroy fails, if one does: the devices before it stay listed, destroyed. */
    method Exit(closeOk: bool, delayedOk: bool, failAt: Option<nat>) returns (status: Status)
      requires Valid()
      modifies this`collecting, this`destroyed, this`active, this`delayed, this`devices, this`up
      ensures created == old(created) && status in {SrOk, SrErr, SrErrHaveDone}
      ensures collecting == (old(collecting) && !(old(up) && old(active).Some?))
      ensures status == SrErrHaveDone <==> !old(up)
      ensures old(up) ==> (status == SrErr <==> !old(Released(closeOk, delayedOk)) || Within(failAt, old(devices)))
      ensures status == SrOk ==> !up && devices == [] && Live() == {} && destroyed == created
                                 && active == (if old(delayed) then None else old(active))
      ensures status != SrOk ==> up == old(up) && devices == old(devices)
      // what is destroyed: nothing, or the waiting device and the listed ones before the one that fails
      ensures !old(up && Released(closeOk, delayedOk)) ==> Valid() && destroyed == old(destroyed)
      ensures old(up && Released(closeOk, delayedOk)) ==>
                destroyed == old(destroyed) + (old(Live()) - Elements(old(devices)))
                             + Elements(old(devices)[..Reached(failAt, old(devices))])
      // a failed exit leaves destroyed devices listed, exactly when a destroy behind the first fails
      ensures (exists d :: d in devices && d in destroyed)
         <==> old(up && Released(closeOk, delayedOk)) && Within(failAt, old(devices)) && failAt.value > 0
    {
      hide Valid, Elements;
      NoneDestroyed();
      if !up {
        return SrErrHaveDone;
      }
      // ds_release_actived_device
      if active.Some? {
        collecting := false;
        if !closeOk {
          return SrErr;
        }
      }
      // the hotplug thread has ended
      if delayed && active.Some? {
        DestroyDelayed(delayedOk);
        if !delayedOk {
          return SrErr;
        }
      }
      var ok := EmptyList(failAt);
      status := if ok then SrOk else SrErr;
    }

    lemma NoneDestroyed()
      requires Valid()
      ensures forall d :: d in devices ==> d !in destroyed
      ensures Live() - Elements(devices) == if delayed then {active.value} else {}
      ensures delayed ==> active.Some?
    {
      assert forall d :: d in devices ==> d in Live();
    }

    /** The last part of ds_lib_exit: destroy the listed devices and forget the list. */
    method EmptyList(failAt: Option<nat>) returns (ok: bool)
      requires Valid() && !delayed && up
      modifies this`devices, this`destroyed, this`up
      ensures ok == !Within(failAt, old(devices))
      ensures destroyed == old(destroyed)
                           + Elements(old(devices)[..Reached(failAt, old(devices))])
      ensures if ok then !up && devices == [] && Live() == {} && destroyed == created else up && devices == old(devices)
      ensures (exists d :: d in devices && d in destroyed) <==> !ok && failAt.value > 0
    {
      NoneDestroyed();
      PrefixDestroyed(devices, Reached(failAt, devices));
      DestroyListed(failAt);
      if failAt.Some? && failAt.value < |devices| {
        return false;
      }
      devices := [];
      up := false;
      ok := true;
    }

    /** ds_lib_init: the demo devices are appended unseen, the others if they are new. */
    method Init(demo: seq<(Id, Device)>, scanned: seq<(Id, Device)>) returns (status: Status)
      requires Valid() && FreshIds(demo, created) && FreshIds(scanned, created)
      requires ScannedIds(demo) !! ScannedIds(scanned)
      requires DemosApart(demo, devices, info)
      modifies this`up, this`created, this`info, this`devices, this`destroyed, this`handledTransaction
      ensures Valid() && up
      ensures status == if old(up) then SrErrHaveDone else SrOk
      // the second time nothing changes
      ensures status != SrOk ==> devices == old(devices) && info == old(info) && created == old(created)
                                 && destroyed == old(destroyed) && handledTransaction == old(handledTransaction)
      // the demo devices are listed, and then the scanned ones that are taken in
      ensures status == SrOk ==>
                && created == old(created) + ScannedIds(demo) + ScannedIds(scanned)
                && devices == AfterScan(old(devices) + IdsOf(demo), WithScanned(old(info), demo), scanned)
                && info == WithScanned(WithScanned(old(info), demo), scanned)
                && destroyed == old(destroyed) + (ScannedIds(scanned) - Elements(devices))
                && handledTransaction == 0
    {
      hide Valid, AfterScan, WithScanned, FreshIds, ScannedIds, DemosApart, Elements, IdsOf;
      if up {
        return SrErrHaveDone;
      }
      FillList(demo, scanned);
      handledTransaction := 0;
      up := true;
      status := SrOk;
    }

    /** The devices at the start: the demo devices, and then a scan. */
    method FillList(demo: seq<(Id, Device)>, scanned: seq<(Id, Device)>)
      requires Valid() && FreshIds(demo, created) && FreshIds(scanned, created)
      requires ScannedIds(demo) !! ScannedIds(scanned)
      requires DemosApart(demo, devices, info)
      modifies this`created, this`info, this`devices, this`destroyed
      ensures Valid() && created == old(created) + ScannedIds(demo) + ScannedIds(scanned)
      ensures devices == AfterScan(old(devices) + IdsOf(demo), WithScanned(old(info), demo), scanned)
      ensures info == WithScanned(WithScanned(old(info), demo), scanned)
      ensures destroyed == old(destroyed) + (ScannedIds(scanned) - Elements(devices))
    {
      hide Valid, AfterScan, WithScanned, FreshIds, ScannedIds, DemosApart, Elements, IdsOf;
      FreshStay(scanned, created, ScannedIds(demo));
      AppendDemos(demo);
      var _ := ProcessAttach(scanned);
    }

    /** make_demo_device_to_list */
    method AppendDemos(demo: seq<(Id, Device)>)
      requires Valid() && FreshIds(demo, created) && DemosApart(demo, devices, info)
      modifies this`created, this`info, this`devices
      ensures Valid() && created == old(created) + ScannedIds(demo)
      ensures devices == old(devices) + IdsOf(demo) && info == WithScanned(old(info), demo)
    {
      hide Valid, ScannedIds;
      var i := 0;
      assert demo[0..] == demo;
      NoneScanned(demo);
      while i < |demo|
        invariant 0 <= i <= |demo| && Valid()
        invariant created == old(created) + ScannedIds(demo[..i])
        invariant devices == old(devices) + IdsOf(demo[..i]) && info == WithScanned(old(info), demo[..i])
        invariant DemosApart(demo[i..], devices, info)
      {
        ScannedStep(demo, i);
        assert demo[i..][0] == demo[i] && demo[i..][1..] == demo[i + 1..];
        ListedCreated();
        assert demo[i].0 !in Elements(devices);
        ghost var wasDevices, wasInfo := devices, info;
        AppendNew(demo[i].0, demo[i].1);
        DemosStayApart(demo[i..], wasDevices, wasInfo);
        IdsStep(demo, i);
        assert demo[..i + 1][..i] == demo[..i];
        i := i + 1;
      }
      assert demo[..i] == demo;
    }

    method AppendNew(d: Id, dev: Device)
      requires Valid() && d !in created && IsNew(devices, info, dev)
      modifies this`created, this`info, this`devices
      ensures Valid() && created == old(created) + {d} && info == old(info)[d := dev] && devices == old(devices) + [d]
    {
      Create(d, dev);
      devices := devices + [d];
    }

    /** ds_start_collect and the end of a collect task. */
    method Collect(start: bool)
      modifies this`collecting
      ensures collecting == (start && (old(collecting) || active.Some?))
    {
      if !start {
        collecting := false;
      } else if !collecting && active.Some? {
        collecting := true;
      }
    }

    /** What can happen next: an instance that is created is a new one, and a virtual device's handle
        is its own. */
    predicate Possible(e: Event)
      reads this`info, this`devices
    {
      match e
      case FromFile(d, dev, _) =>
        && d !in info && dev.devType != DEV_TYPE_USB
        && forall x | x in devices && x in info :: info[x].handle != dev.handle
      case Round(scanned, _) =>
        && (forall k | 0 <= k < |scanned| :: scanned[k].0 !in info)
        && forall k, l | 0 <= k < l < |scanned| :: scanned[k].0 != scanned[l].0
      case _ => true
    }

    lemma KnownCreated()
      requires Valid()
      ensures created == info.Keys
    {
    }

    method Step(e: Event)
      requires Valid() && Possible(e)
      modifies this
      ensures Valid() && old(destroyed) <= destroyed && old(created) <= created && up == old(up)
      // which events may touch what
      ensures !e.Round? && !e.FromFile? ==> created == old(created)
      ensures !e.Round? && !e.FromFile? && !e.Attached? ==> info == old(info)
      ensures !e.Round? && !e.FromFile? && !e.RemoveDev? ==> devices == old(devices)
      ensures !e.Activate? && !e.RemoveDev? ==> active == old(active)
      ensures !e.Collecting? && !e.Detached? ==> collecting == old(collecting)
      ensures !e.Attached? ==> transactionId == old(transactionId)
      ensures !e.Round? ==> handledTransaction == old(handledTransaction)
      // what each of them does
      ensures match e
              case Activate(handle, destroyOk, closeOk, openOk, _) =>
                handle != 0 && !collecting && destroyOk && closeOk && openOk && Listed(handle) ==> ActiveHas(handle)
              case RemoveDev(handle, delayedOk, destroyOk) =>
                handle != 0 && !old(Busy(handle)) && delayedOk && destroyOk && old(Listed(handle)) ==>
                  exists d :: d in old(devices) && info[d].handle == handle && devices == Remove(old(devices), d)
              case FromFile(d, dev, readable) =>
                if readable then devices == old(devices) + [d] && info == old(info)[d := dev]
                    else devices == old(devices)
              case Attached(usb, closeOk) =>
                old(Unknown(usb)) ==>
                  && info == InfoReconnected(old(info), old(Reconnects(closeOk)), usb)
                  && attachEvent == (old(attachEvent) || old(Reconnects(closeOk)) == None)
              case Detached(usb, _) =>
                !(old(detachHandle).Some? && !old(Unknown(detachHandle.value)) && old(Unknown(usb))) ==>
                  waiting && detachHandle == Some(usb)
              case Round(scanned, destroyOk) =>
                && info == old(InfoAfter(scanned)) && handledTransaction == transactionId
                && Detached(old(DetachAfter(scanned, destroyOk)), old(ListAfter(scanned)), old(DestroyedAfter(scanned)),
                            old(delayed))
              case Collecting(start) => collecting == (start && (old(collecting) || active.Some?))
    {
      hide Valid, AfterScan, WithScanned, DetachOf, Remove, ReconnectOf, ScannedIds;
      hide Unknown, InfoReconnected, Busy, Listed, Detached, Live, Elements;
      match e {
        case Activate(handle, destroyOk, closeOk, openOk, reopenOk) =>
          var _ := ActiveDevice(handle, destroyOk, closeOk, openOk, reopenOk);
        case RemoveDev(handle, delayedOk, destroyOk) =>
          var _ := RemoveDevice(handle, delayedOk, destroyOk);
        case FromFile(d, dev, readable) =>
          KnownCreated();
          var _ := DeviceFromFile(d, dev, readable);
        case Attached(usb, closeOk) =>
          HotplugAttach(usb, closeOk);
        case Detached(usb, ownThread) =>
          var _ := HotplugDetach(usb, ownThread);
        case Round(scanned, destroyOk) =>
          KnownCreated();
          var _ := Tick(scanned, destroyOk);
        case Collecting(start) =>
          Collect(start);
      }
    }

    /** Any run of calls, callbacks and hotplug rounds keeps the devices conserved, the active device
        right and the list apart, and a successful exit then leaves nothing alive: every instance ever
        created has been destroyed, and none of them twice. */
    method RunAndExit(events: seq<Event>, closeOk: bool) returns (status: Status)
      requires Valid() && up
      modifies this
      ensures status == SrOk ==> Live() == {} && destroyed == created && old(created) <= created
      ensures status != SrOk ==> Valid() && !closeOk
    {
      hide Valid;
      hide Possible;
      var i := 0;
      while i < |events|
        invariant 0 <= i <= |events|
        invariant Valid() && up && old(created) <= created
      {
        var possible := Possible(events[i]);
        if possible {
          Step(events[i]);
        }
        i := i + 1;
      }
      status := Exit(closeOk, true, None);
    }
  }

  /** The failing place is one of the list. */
  predicate Within(failAt: Option<nat>, devices: seq<Id>) {
    failAt.Some? && failAt.value < |devices|
  }

  /** How far the destroying gets. */
  function Reached(failAt: Option<nat>, devices: seq<Id>): (n: nat)
    ensures n <= |devices|
  {
    if Within(failAt, devices) then failAt.value else |devices|
  }

  lemma PrefixDestroyed(s: seq<Id>, n: nat)
    requires n <= |s|
    ensures n > 0 ==> s[0] in s && s[0] in Elements(s[..n])
    ensures n == 0 ==> Elements(s[..n]) == {}
    ensures n == |s| ==> s[..n] == s
  {
    if n > 0 { assert s[0] == s[..n][0]; }
  }

  lemma PrefixElements(s: seq<Id>, i: nat)
    requires NoDuplicates(s) && i < |s|
    ensures Elements(s[..i + 1]) == Elements(s[..i]) + {s[i]} && s[i] !in Elements(s[..i])
  {
    assert s[..i + 1] == s[..i] + [s[i]];
  }

  function ScannedIds(scanned: seq<(Id, Device)>): set<Id> {
    set k | 0 <= k < |scanned| :: scanned[k].0
  }

  lemma OneMoreScanned(was: seq<Id>, now: seq<Id>, ids: set<Id>, d: Id, appended: bool)
    requires d !in was && d !in ids && now == if appended then was + [d] else was
    ensures Elements(now) == if appended then Elements(was) + {d} else Elements(was)
    ensures ids + {d} - Elements(now) == if appended then ids - Elements(was) else ids - Elements(was) + {d}
  {
    assert forall x :: x in was + [d] <==> x in was || x == d;
  }

  /** The instances known after a scan. */
  function WithScanned(info: map<Id, Device>, scanned: seq<(Id, Device)>): map<Id, Device>
    decreases |scanned|
  {
    if scanned == [] then info
    else
      var n := |scanned| - 1;
      WithScanned(info, scanned[..n])[scanned[n].0 := scanned[n].1]
  }

  /** The list after a scan. */
  function AfterScan(devices: seq<Id>, info: map<Id, Device>, scanned: seq<(Id, Device)>): seq<Id>
    decreases |scanned|
  {
    if scanned == [] then devices
    else
      var n := |scanned| - 1;
      var was := AfterScan(devices, info, scanned[..n]);
      if !scanned[n].1.initializing && IsNew(was, WithScanned(info, scanned[..n]), scanned[n].1)
      then was + [scanned[n].0] else was
  }

  /** The scan brings instances not known before, and different ones. */
  predicate NewIds(devices: seq<Id>, info: map<Id, Device>, scanned: seq<(Id, Device)>) {
    && (forall d :: d in devices ==> d in info)
    && (forall k :: 0 <= k < |scanned| ==> scanned[k].0 !in info)
    && forall k, l :: 0 <= k < l < |scanned| ==> scanned[k].0 != scanned[l].0
  }

  lemma {:induction false} WithScannedAt(devices: seq<Id>, info: map<Id, Device>, scanned: seq<(Id, Device)>)
    requires NewIds(devices, info, scanned)
    ensures var after := WithScanned(info, scanned);
            && (forall d :: d in info ==> d in after && after[d] == info[d])
            && (forall k :: 0 <= k < |scanned| ==> scanned[k].0 in after && after[scanned[k].0] == scanned[k].1)
    decreases |scanned|
  {
    if scanned == [] {
    } else {
      WithScannedAt(devices, info, scanned[..|scanned| - 1]);
    }
  }

  /** The scanned instance k is taken in, given which of the earlier ones were. */
  predicate TakenIn(devices: seq<Id>, info: map<Id, Device>, scanned: seq<(Id, Device)>, list: seq<Id>, k: nat)
    requires k < |scanned|
  {
    && !scanned[k].1.initializing && IsNew(devices, info, scanned[k].1)
    && forall l :: 0 <= l < k && scanned[l].0 in list ==> !InstanceMatches(scanned[l].1, scanned[k].1)
  }

  /** A scanned instance is listed afterwards iff it is ready and matches neither a device listed before
      nor an earlier instance of the scan that was taken in. The others keep their places. */
  lemma {:induction false} AfterScanMeaning(devices: seq<Id>, info: map<Id, Device>, scanned: seq<(Id, Device)>)
    requires NewIds(devices, info, scanned)
    ensures var list := AfterScan(devices, info, scanned);
            && devices <= list
            && (forall k :: 0 <= k < |scanned| ==> (scanned[k].0 in list <==> TakenIn(devices, info, scanned, list, k)))
            && (forall d :: d in list ==> d in devices || d in ScannedIds(scanned))
    decreases |scanned|
  {
    var list := AfterScan(devices, info, scanned);
    if scanned == [] {
    } else {
      var n := |scanned| - 1;
      var before, d := scanned[..n], scanned[n].0;
      AfterScanMeaning(devices, info, before);
      var was := AfterScan(devices, info, before);
      ScannedStep(scanned, n);
      assert scanned[..n + 1] == scanned;
      LastIsNew(devices, info, scanned, was);
      NotTwice(devices, info, scanned, was);
      assert forall x :: x in was + [d] <==> x in was || x == d;
      hide AfterScan, NewIds, IsNew, WithScanned;
      forall k | 0 <= k < |scanned| ensures scanned[k].0 in list <==> TakenIn(devices, info, scanned, list, k) {
        if k < n {
          assert before[k] == scanned[k];
          EarlierTakenIn(devices, info, scanned, was, list, k);
        }
      }
    }
  }

  /** An instance of the scan is not in the list before its turn. */
  lemma NotTwice(devices: seq<Id>, info: map<Id, Device>, scanned: seq<(Id, Device)>, was: seq<Id>)
    requires scanned != [] && NewIds(devices, info, scanned)
    requires forall d :: d in was ==> d in devices || d in ScannedIds(scanned[..|scanned| - 1])
    ensures scanned[|scanned| - 1].0 !in was
    ensures forall k :: 0 <= k < |scanned| - 1 ==> scanned[k].0 != scanned[|scanned| - 1].0
  {
    var before, d := scanned[..|scanned| - 1], scanned[|scanned| - 1].0;
    forall k | 0 <= k < |before| ensures before[k].0 != d {}
  }

  /** Later instances have no say about an earlier one. */
  lemma EarlierTakenIn(devices: seq<Id>, info: map<Id, Device>, scanned: seq<(Id, Device)>, was: seq<Id>,
      list: seq<Id>, k: nat)
    requires k < |scanned| - 1 && forall l :: 0 <= l < |scanned| - 1 ==> (scanned[l].0 in list <==> scanned[l].0 in was)
    ensures TakenIn(devices, info, scanned, list, k) <==> TakenIn(devices, info, scanned[..|scanned| - 1], was, k)
  {
    var before := scanned[..|scanned| - 1];
    assert forall l :: 0 <= l <= k ==> before[l] == scanned[l];
  }

  lemma LastIsNew(devices: seq<Id>, info: map<Id, Device>, scanned: seq<(Id, Device)>, was: seq<Id>)
    requires scanned != [] && NewIds(devices, info, scanned) && devices <= was
    requires forall d :: d in was ==> d in devices || d in ScannedIds(scanned[..|scanned| - 1])
    ensures var n := |scanned| - 1;
            IsNew(was, WithScanned(info, scanned[..n]), scanned[n].1)
            <==> IsNew(devices, info, scanned[n].1)
                 && forall l :: 0 <= l < n && scanned[l].0 in was ==> !InstanceMatches(scanned[l].1, scanned[n].1)
  {
    var n := |scanned| - 1;
    var before, dev := scanned[..n], scanned[n].1;
    var after := WithScanned(info, before);
    WithScannedAt(devices, info, before);
    if IsNew(devices, info, dev) && forall l :: 0 <= l < n && scanned[l].0 in was ==>
        !InstanceMatches(scanned[l].1, dev) {
      forall d | d in was && d in after ensures !InstanceMatches(after[d], dev) {
        if d !in devices {
          var l :| 0 <= l < n && before[l].0 == d;
          assert before[l] == scanned[l];
        }
      }
    }
    if IsNew(was, after, dev) {
      forall d | d in devices && d in info ensures !InstanceMatches(info[d], dev) {
        assert d in was;
      }
      forall l | 0 <= l < n && scanned[l].0 in was ensures !InstanceMatches(scanned[l].1, dev) {
        assert before[l] == scanned[l];
      }
    }
  }

  /** The place of the first listed device that matches, |devices| if none does. */
  function FirstUsb(devices: seq<Id>, info: map<Id, Device>, usb: Usb): (i: nat)
    ensures i <= |devices|
    ensures i < |devices| ==> devices[i] in info && UsbMatches(info[devices[i]], usb)
    ensures forall k :: 0 <= k < i && devices[k] in info ==> !UsbMatches(info[devices[k]], usb)
  {
    if devices == [] || (devices[0] in info && UsbMatches(info[devices[0]], usb)) then 0
    else 1 + FirstUsb(devices[1..], info, usb)
  }

  /** The place of the first listed device on the bus that matches, |devices| if none does. */
  function FirstLost(devices: seq<Id>, info: map<Id, Device>, usb: Usb): (i: nat)
    ensures i <= |devices|
    ensures i < |devices| ==> devices[i] in info && info[devices[i]].conn.Some? && UsbMatches(info[devices[i]], usb)
    ensures i == |devices| ==> forall d :: d in devices && d in info && info[d].conn.Some? ==> !UsbMatches(info[d], usb)
  {
    if devices == [] || (devices[0] in info && info[devices[0]].conn.Some? && UsbMatches(info[devices[0]], usb)) then 0
    else 1 + FirstLost(devices[1..], info, usb)
  }

  /** The device that takes over handle, bus and address of the one come back. */
  function ReconnectOf(devices: seq<Id>, info: map<Id, Device>, active: Option<Id>, lost: Usb, closeOk: bool):
      (r: Option<Id>)
    ensures r.Some? ==>
              r.value in devices && r.value in info && info[r.value].conn.Some? && UsbMatches(info[r.value], lost)
    ensures r == None ==> (forall d :: d in devices && d in info && info[d].conn.Some? ==> !UsbMatches(info[d], lost))
                          || (!closeOk && active.Some? && active.value in devices && active.value in info
                              && UsbMatches(info[active.value], lost))
  {
    var i := FirstLost(devices, info, lost);
    if i == |devices| || (active == Some(devices[i]) && !closeOk) then None else Some(devices[i])
  }

  function InfoReconnected(info: map<Id, Device>, r: Option<Id>, usb: Usb): map<Id, Device> {
    if r.Some? && r.value in info then info[r.value := Reconnected(info[r.value], usb)] else info
  }

  /** What a detach comes to for the first listed device that matches: none does (or its driver does not
      destroy it), it is the active one and waits, or it is destroyed. */
  datatype Detach = Kept | Waits(d: Id) | Gone(d: Id)

  function DetachOf(devices: seq<Id>, info: map<Id, Device>, active: Option<Id>, handle: Option<Usb>,
      destroyOk: bool): (r: Detach)
    ensures r.Kept? && handle.Some? && destroyOk ==>
              forall d :: d in devices && d in info ==> !UsbMatches(info[d], handle.value)
    ensures r.Kept? && handle.Some? ==>
              forall d :: d in devices && d in info && UsbMatches(info[d], handle.value) && active == Some(d) ==>
                exists x :: x in devices && x in info && UsbMatches(info[x], handle.value) && active != Some(x)
    ensures !r.Kept? ==> handle.Some? && r.d in devices && r.d in info && UsbMatches(info[r.d], handle.value)
                         && (r.Waits? <==> active == Some(r.d)) && (r.Gone? ==> destroyOk)
  {
    if handle == None || FirstUsb(devices, info, handle.value) == |devices| then Kept
    else
      var d := devices[FirstUsb(devices, info, handle.value)];
      if active == Some(d) then Waits(d) else if destroyOk then Gone(d) else Kept
  }

  /** An API call, a callback or a round of the hotplug thread, with what the drivers answer in it. */
  datatype Event =
    | Activate(handle: nat, destroyOk: bool, closeOk: bool, openOk: bool, reopenOk: bool)
    | RemoveDev(handle: nat, delayedOk: bool, destroyOk: bool)
    | FromFile(d: Id, dev: Device, readable: bool)
    | Attached(usb: Usb, closeOk: bool)
    | Detached(usb: Usb, ownThread: bool)
    | Round(scanned: seq<(Id, Device)>, destroyOk: bool)
    | Collecting(start: bool)

  /** The demo devices match neither a listed device nor each other. */
  ghost predicate DemosApart(demo: seq<(Id, Device)>, devices: seq<Id>, info: map<Id, Device>) {
    && (forall k :: 0 <= k < |demo| ==> IsNew(devices, info, demo[k].1))
    && forall k, l :: 0 <= k < l < |demo| ==> !InstanceMatches(demo[k].1, demo[l].1)
  }

  /** The instances, in order. */
  function IdsOf(scanned: seq<(Id, Device)>): (r: seq<Id>)
    ensures |r| == |scanned| && forall k :: 0 <= k < |r| ==> r[k] == scanned[k].0
  {
    seq(|scanned|, k requires 0 <= k < |scanned| => scanned[k].0)
  }

  lemma IdsStep(scanned: seq<(Id, Device)>, i: nat)
    requires i < |scanned|
    ensures IdsOf(scanned[..i + 1]) == IdsOf(scanned[..i]) + [scanned[i].0]
  {
  }

  lemma FreshStay(scanned: seq<(Id, Device)>, created: set<Id>, more: set<Id>)
    requires FreshIds(scanned, created) && more !! ScannedIds(scanned)
    ensures FreshIds(scanned, created + more)
  {
    forall k | 0 <= k < |scanned| ensures scanned[k].0 !in created + more {
      assert scanned[k].0 in ScannedIds(scanned);
    }
  }

  lemma DemosStayApart(demo: seq<(Id, Device)>, devices: seq<Id>, info: map<Id, Device>)
    requires demo != [] && DemosApart(demo, devices, info) && demo[0].0 !in devices
    ensures DemosApart(demo[1..], devices + [demo[0].0], info[demo[0].0 := demo[0].1])
  {
    forall k | 0 <= k < |demo[1..]|
      ensures IsNew(devices + [demo[0].0], info[demo[0].0 := demo[0].1], demo[1..][k].1)
    {
      assert IsNew(devices, info, demo[k + 1].1) && !InstanceMatches(demo[0].1, demo[k + 1].1);
    }
  }

  lemma NoneScanned(scanned: seq<(Id, Device)>)
    ensures ScannedIds(scanned[..0]) == {}
  {
  }

  /** A device instance after it took over a reconnected USB device. */
  function Reconnected(dev: Device, usb: Usb): Device {
    dev.(handle := usb.handle, conn := Some(usb.port))
  }

  /** The instance matches no listed one. */
  predicate IsNew(devices: seq<Id>, info: map<Id, Device>, dev: Device) {
    forall x :: x in devices && x in info ==> !InstanceMatches(info[x], dev)
  }

  lemma ScannedStep(scanned: seq<(Id, Device)>, i: nat)
    requires i < |scanned|
    ensures ScannedIds(scanned[..i + 1]) == ScannedIds(scanned[..i]) + {scanned[i].0}
    ensures (forall k, l :: 0 <= k < l < |scanned| ==> scanned[k].0 != scanned[l].0) ==>
              scanned[i].0 !in ScannedIds(scanned[..i])
  {
    assert scanned[..i + 1] == scanned[..i] + [scanned[i]];
    var a, b := ScannedIds(scanned[..i + 1]), ScannedIds(scanned[..i]) + {scanned[i].0};
    forall d ensures d in a <==> d in b {
      if d in b && d == scanned[i].0 {
        assert scanned[..i + 1][i].0 == d;
      } else if d in b {
        var k :| 0 <= k < i && scanned[..i][k].0 == d;
        assert scanned[..i + 1][k].0 == d;
      }
    }
  }

  /** A scan returns new instances. */
  ghost predicate FreshIds(scanned: seq<(Id, Device)>, created: set<Id>) {
    && (forall k :: 0 <= k < |scanned| ==> scanned[k].0 !in created)
    && forall k, l :: 0 <= k < l < |scanned| ==> scanned[k].0 != scanned[l].0
  }
}
