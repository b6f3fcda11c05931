/**
 The three global tables of the library (src/cc_of_util.c, src/cc_of_lib.c) as values: devices with
 their socket lists, registered sockets, and channels named by (DPID, Aux ID). Tables are modelled by
 key and value; the memory management of keys and nodes is not.
 */
module Tables {
  import opened Lists

  /** A descriptor the kernel can hand out: a non-negative C int. */
  type Fd = x: int | 0 <= x < 0x8000_0000
  type U64 = x: int | 0 <= x < 0x1_0000_0000_0000_0000
  type U8 = x: int | 0 <= x < 0x100
  type MgrId = nat

  datatype DevKey = DevKey(controllerIp: nat, switchIp: nat, port: nat)
  datatype ChanKey = ChanKey(dpId: U64, auxId: U8)
  datatype Role = Controller | Switch
  datatype Readiness = Down | Up
  datatype Proto = TCP | UDP
  datatype Status = OK | EINVAL | EHTBL | EMISC | ESYS

  datatype RwInfo = RwInfo(state: Readiness, dev: DevKey, proto: Proto, mgr: MgrId)
  datatype Stats = Stats(rx: nat, tx: nat, drops: nat)
  datatype ChanInfo = ChanInfo(sock: Fd, retries: nat, stats: Stats)

  datatype Tables = Tables(ofdev: map<DevKey, seq<Fd>>,
                           ofrw: map<Fd, RwInfo>,
                           ofchannel: map<ChanKey, ChanInfo>)

  /** (uint8_t)x. */
  function ToAux(x: int): U8
    requires 0 <= x
  {
    x % 0x100
  }

  /** (int)x of a uint64_t: the low 32 bits, read as two's complement. */
  function ToInt(x: U64): int {
    var low := x % 0x1_0000_0000;
    if low < 0x8000_0000 then low else low - 0x1_0000_0000
  }

  /** The id a controller uses for a socket until it learns the real one. */
  function DummyKey(s: Fd): ChanKey {
    ChanKey(s, ToAux(s))
  }

  /** Both casts keep the value modulo their width, and land in their range. */
  lemma CastsMean(x: U64)
    ensures -0x8000_0000 <= ToInt(x) < 0x8000_0000
    ensures exists n: nat :: x - ToInt(x) == n * 0x1_0000_0000
    ensures exists n: nat :: x - ToAux(x) == n * 0x100
  {
    var n := x / 0x1_0000_0000;
    assert x - ToInt(x) == n * 0x1_0000_0000 || x - ToInt(x) == (n + 1) * 0x1_0000_0000;
    assert x - ToAux(x) == (x / 0x100) * 0x100;
  }

  lemma DummyNamesItsSocket(s: Fd)
    ensures ToInt(DummyKey(s).dpId) == s
  {
  }

  // ---------------------------------------------------------------------------------------------
  // The cross-table invariant
  // ---------------------------------------------------------------------------------------------

  /** Every registered socket is in its own device's list, and every listed socket is registered there. */
  ghost predicate ListsMatch(t: Tables) {
    && (forall s :: s in t.ofrw ==> t.ofrw[s].dev in t.ofdev && s in t.ofdev[t.ofrw[s].dev])
    && (forall d, s :: d in t.ofdev && s in t.ofdev[d] ==> s in t.ofrw && t.ofrw[s].dev == d)
    && (forall d :: d in t.ofdev ==> NoDup(t.ofdev[d]))
  }

  /** Channels lead to registered sockets, no two to the same one. */
  ghost predicate ChannelsMatch(t: Tables) {
    && (forall k :: k in t.ofchannel ==> t.ofchannel[k].sock in t.ofrw)
    && (forall k, l :: k in t.ofchannel && l in t.ofchannel && t.ofchannel[k].sock == t.ofchannel[l].sock
          ==> k == l)
  }

  ghost predicate TablesInv(t: Tables) {
    ListsMatch(t) && ChannelsMatch(t)
  }

  const EMPTY := Tables(map[], map[], map[])

  // ---------------------------------------------------------------------------------------------
  // Registering a device
  // ---------------------------------------------------------------------------------------------

  /** cc_of_dev_register inserts an empty list whether or not the key is known. */
  function Register(t: Tables, d: DevKey): Tables {
    t.(ofdev := t.ofdev[d := []])
  }

  /** What the library expects of a registration: the key is new, or none of its sockets is left. */
  predicate MayRegister(t: Tables, d: DevKey) {
    d in t.ofdev ==> t.ofdev[d] == []
  }

  /** Registering keeps the invariant exactly when no registered socket of that key is forgotten. */
  lemma RegisterKeepsInvIff(t: Tables, d: DevKey)
    requires TablesInv(t)
    ensures TablesInv(Register(t, d)) <==> MayRegister(t, d)
  {
    if d in t.ofdev && t.ofdev[d] != [] {
      var s := t.ofdev[d][0];
      assert s in t.ofdev[d];
      assert s in Register(t, d).ofrw && s !in Register(t, d).ofdev[d];
    }
  }

  /** Only the list of that device changes. */
  lemma RegisterAddsOne(t: Tables, d: DevKey)
    ensures var t' := Register(t, d);
            && t'.ofdev.Keys == t.ofdev.Keys + {d} && t'.ofdev[d] == []
            && (forall e :: e in t.ofdev && e != d ==> t'.ofdev[e] == t.ofdev[e])
            && t'.ofrw == t.ofrw && t'.ofchannel == t.ofchannel
  {
  }

  // ---------------------------------------------------------------------------------------------
  // Adding and deleting a socket
  // ---------------------------------------------------------------------------------------------

  function ChannelFor(role: Role, s: Fd, key: ChanKey): ChanKey {
    if role == Controller then DummyKey(s) else key
  }

  /** atomic_add_upd_htbls_with_rwsocket_lockfree: sockets, then device list, then channel; rolled back. */
  function AddSocket(role: Role, t: Tables, s: Fd, d: DevKey, proto: Proto, mgr: MgrId, key: ChanKey): (Tables, Status) {
    var t1 := t.(ofrw := t.ofrw[s := RwInfo(Down, d, proto, mgr)]);
    if d !in t.ofdev then (t1.(ofrw := t1.ofrw - {s}), EINVAL)
    else
      var t2 := t1.(ofdev := t1.ofdev[d := t1.ofdev[d] + [s]]);
      (t2.(ofchannel := t2.ofchannel[ChannelFor(role, s, key) := ChanInfo(s, 0, Stats(0, 0, 0))]), OK)
  }

  /** del_ofchann_rwsocket_lockfree: every channel of the socket number goes. */
  function DelChannels(ch: map<ChanKey, ChanInfo>, s: int): map<ChanKey, ChanInfo> {
    map k | k in ch && ch[k].sock != s :: ch[k]
  }

  /** The table part of cc_del_sockfd_rw_pollthr_lockfree. */
  function DelSocket(t: Tables, s: Fd): Tables {
    var ofdev' :=
      if s in t.ofrw && t.ofrw[s].dev in t.ofdev
      then t.ofdev[t.ofrw[s].dev := Remove(t.ofdev[t.ofrw[s].dev], s)]
      else t.ofdev;
    Tables(ofdev', t.ofrw - {s}, DelChannels(t.ofchannel, s))
  }

  lemma FreshIsUnlisted(t: Tables, s: Fd)
    requires TablesInv(t) && s !in t.ofrw
    ensures forall d :: d in t.ofdev ==> s !in t.ofdev[d]
    ensures forall k :: k in t.ofchannel ==> t.ofchannel[k].sock != s
  {
  }

  /** s is registered as `info`, last in its device's list, and bound to `key`; nothing else changes. */
  ghost predicate SocketAdded(t: Tables, t': Tables, s: Fd, info: RwInfo, key: ChanKey) {
    && t'.ofrw.Keys == t.ofrw.Keys + {s} && t'.ofrw[s] == info
    && (forall x :: x in t.ofrw && x != s ==> t'.ofrw[x] == t.ofrw[x])
    && t'.ofdev.Keys == t.ofdev.Keys && info.dev in t.ofdev && t'.ofdev[info.dev] == t.ofdev[info.dev] + [s]
    && (forall d :: d in t.ofdev && d != info.dev ==> t'.ofdev[d] == t.ofdev[d])
    && t'.ofchannel.Keys == t.ofchannel.Keys + {key} && t'.ofchannel[key] == ChanInfo(s, 0, Stats(0, 0, 0))
    && (forall k :: k in t.ofchannel && k != key ==> t'.ofchannel[k] == t.ofchannel[k])
  }

  /** A Controller binds the socket number, a Switch the id it was given, and a send on that id gets there. */
  lemma AddBinds(role: Role, t: Tables, s: Fd, d: DevKey, proto: Proto, mgr: MgrId, key: ChanKey)
    ensures var (t', status) := AddSocket(role, t, s, d, proto, mgr, key);
            var bound := match role case Controller => ChanKey(s, s % 256) case Switch => key;
            if d in t.ofdev
            then && status == OK && SocketAdded(t, t', s, RwInfo(Down, d, proto, mgr), bound)
                 && SendTarget(t', bound.dpId, bound.auxId) == Some((s, mgr))
            else status == EINVAL && t'.ofrw == t.ofrw - {s} && t'.ofdev == t.ofdev && t'.ofchannel == t.ofchannel
  {
    var bound := match role case Controller => ChanKey(s, s % 256) case Switch => key;
    if d in t.ofdev {
      NewKeyLeadsThere(AddSocket(role, t, s, d, proto, mgr, key).0, bound);
    }
  }

  /** Ids bound to other sockets still lead where they led. */
  lemma AddKeepsTargets(role: Role, t: Tables, s: Fd, d: DevKey, proto: Proto, mgr: MgrId, key: ChanKey, k: ChanKey)
    requires TablesInv(t) && s !in t.ofrw && k in t.ofchannel
    requires k != match role case Controller => ChanKey(s, s % 256) case Switch => key
    ensures SendTarget(AddSocket(role, t, s, d, proto, mgr, key).0, k.dpId, k.auxId) == SendTarget(t, k.dpId, k.auxId)
    ensures SendTarget(t, k.dpId, k.auxId).Some?
  {
    AddBinds(role, t, s, d, proto, mgr, key);
    NewKeyLeadsThere(t, k);
    NewKeyLeadsThere(AddSocket(role, t, s, d, proto, mgr, key).0, k);
  }

  /** s is gone from its device's list, the socket table and the channels; nothing else changes. */
  ghost predicate SocketGone(t: Tables, t': Tables, s: Fd) {
    && s in t.ofrw && t'.ofrw.Keys == t.ofrw.Keys - {s} && (forall x :: x in t'.ofrw ==> t'.ofrw[x] == t.ofrw[x])
    && t'.ofdev.Keys == t.ofdev.Keys
    && (forall d :: d in t.ofdev ==> t'.ofdev[d] == if d == t.ofrw[s].dev then Remove(t.ofdev[d], s) else t.ofdev[d])
    && (forall k :: k in t'.ofchannel <==> k in t.ofchannel && t.ofchannel[k].sock != s)
    && (forall k :: k in t'.ofchannel ==> t'.ofchannel[k] == t.ofchannel[k])
  }

  /** Exactly s goes, and every id bound to another socket still leads where it led. */
  lemma DelTakesOnly(t: Tables, s: Fd)
    requires TablesInv(t) && s in t.ofrw
    ensures SocketGone(t, DelSocket(t, s), s)
    ensures forall k :: k in t.ofchannel && t.ofchannel[k].sock != s ==>
              && SendTarget(t, k.dpId, k.auxId).Some?
              && SendTarget(DelSocket(t, s), k.dpId, k.auxId) == SendTarget(t, k.dpId, k.auxId)
  {
    var t' := DelSocket(t, s);
    forall k | k in t.ofchannel && t.ofchannel[k].sock != s
      ensures SendTarget(t, k.dpId, k.auxId).Some? && SendTarget(t', k.dpId, k.auxId) == SendTarget(t, k.dpId, k.auxId)
    {
      NewKeyLeadsThere(t, k);
      NewKeyLeadsThere(t', k);
    }
  }

  lemma AddKeepsInv(role: Role, t: Tables, s: Fd, d: DevKey, proto: Proto, mgr: MgrId, key: ChanKey)
    requires TablesInv(t) && s !in t.ofrw
    ensures TablesInv(AddSocket(role, t, s, d, proto, mgr, key).0)
  {
    var t' := AddSocket(role, t, s, d, proto, mgr, key).0;
    if d !in t.ofdev {
      assert t'.ofrw == t.ofrw;
    } else {
      AddKeepsLists(t, s, d, t');
      AddKeepsChannels(t, s, ChannelFor(role, s, key), t');
    }
  }

  lemma AddKeepsLists(t: Tables, s: Fd, d: DevKey, t': Tables)
    requires TablesInv(t) && s !in t.ofrw && d in t.ofdev && s in t'.ofrw && t'.ofrw[s].dev == d
    requires t'.ofrw == t.ofrw[s := t'.ofrw[s]] && t'.ofdev == t.ofdev[d := t.ofdev[d] + [s]]
    ensures ListsMatch(t')
  {
    FreshIsUnlisted(t, s);
    assert s in t.ofdev[d] + [s];
    forall e, x | e in t'.ofdev && x in t'.ofdev[e] ensures x in t'.ofrw && t'.ofrw[x].dev == e {
      if x != s {
        assert x in t.ofdev[e];
      }
    }
  }

  lemma AddKeepsChannels(t: Tables, s: Fd, key: ChanKey, t': Tables)
    requires TablesInv(t) && s !in t.ofrw && s in t'.ofrw && t'.ofrw == t.ofrw[s := t'.ofrw[s]]
    requires key in t'.ofchannel && t'.ofchannel[key].sock == s
    requires t'.ofchannel == t.ofchannel[key := t'.ofchannel[key]]
    ensures ChannelsMatch(t')
  {
    FreshIsUnlisted(t, s);
  }

  /** Adding to an unknown device leaves no trace. */
  lemma FailedAddIsInert(role: Role, t: Tables, s: Fd, d: DevKey, proto: Proto, mgr: MgrId, key: ChanKey)
    requires s !in t.ofrw
    ensures AddSocket(role, t, s, d, proto, mgr, key).1 != OK <==> d !in t.ofdev
    ensures d !in t.ofdev ==> AddSocket(role, t, s, d, proto, mgr, key).0 == t
  {
  }

  lemma DelKeepsInv(t: Tables, s: Fd)
    requires TablesInv(t)
    ensures TablesInv(DelSocket(t, s))
    ensures s in t.ofrw ==>
              var d := t.ofrw[s].dev; DelSocket(t, s).ofdev == t.ofdev[d := Remove(t.ofdev[d], s)]
  {
    if s in t.ofrw {
      RemoveKeeps(t.ofdev[t.ofrw[s].dev], s);
    } else {
      FreshIsUnlisted(t, s);
    }
  }

  /** An add under an unbound channel key is undone by the delete: tables and list orders alike. */
  lemma AddThenDelRestores(role: Role, t: Tables, s: Fd, d: DevKey, proto: Proto, mgr: MgrId, key: ChanKey)
    requires TablesInv(t) && s !in t.ofrw && d in t.ofdev
    ensures var t' := AddSocket(role, t, s, d, proto, mgr, key).0;
            && s in t'.ofrw && t'.ofrw[s].mgr == mgr
            && DelSocket(t', s).ofdev == t.ofdev && DelSocket(t', s).ofrw == t.ofrw
            && (DelSocket(t', s) == t <==> ChannelFor(role, s, key) !in t.ofchannel)
  {
    var t' := AddSocket(role, t, s, d, proto, mgr, key).0;
    FreshIsUnlisted(t, s);
    RemoveLast(t.ofdev[d], s);
    var t'' := DelSocket(t', s);
    assert t''.ofdev == t.ofdev && t''.ofrw == t.ofrw;
    var k := ChannelFor(role, s, key);
    assert k !in t''.ofchannel;
    if k !in t.ofchannel {
      assert t''.ofchannel == t.ofchannel;
    }
  }

  // ---------------------------------------------------------------------------------------------
  // Looking up and renaming a channel
  // ---------------------------------------------------------------------------------------------

  /** The key as given, or with the aux id replaced by the low byte of the DPID. */
  function Resolve(t: Tables, dp: U64, aux: U8): Option<ChanKey> {
    if ChanKey(dp, aux) in t.ofchannel then Some(ChanKey(dp, aux))
    else if ChanKey(dp, ToAux(dp)) in t.ofchannel then Some(ChanKey(dp, ToAux(dp)))
    else None
  }

  /** cc_of_send_pkt up to the write: the socket and the thread that will send. */
  function SendTarget(t: Tables, dp: U64, aux: U8): Option<(Fd, MgrId)> {
    match Resolve(t, dp, aux)
    case None => None
    case Some(k) =>
      var s := t.ofchannel[k].sock;
      if s in t.ofrw then Some((s, t.ofrw[s].mgr)) else None
  }

  /** cc_of_set_real_dpid_auxid: copy, delete by the socket number the dummy DPID stands for, insert. */
  function Rename(t: Tables, dp: U64, aux: U8, chosen: ChanKey): (Tables, Status) {
    match Resolve(t, dp, aux)
    case None => (t, EINVAL)
    case Some(k) =>
      (t.(ofchannel := DelChannels(t.ofchannel, ToInt(dp))[chosen := t.ofchannel[k]]), OK)
  }

  /** The id as given goes first, then the one with the low byte of the DPID, and otherwise there is none. */
  lemma SendOutcome(t: Tables, dp: U64, aux: U8)
    ensures var direct, low := ChanKey(dp, aux), ChanKey(dp, dp % 256);
            && (direct !in t.ofchannel && low !in t.ofchannel ==> SendTarget(t, dp, aux).None?)
            && (forall k, s, m :: k == (if direct in t.ofchannel then direct else low) ==>
                  (SendTarget(t, dp, aux) == Some((s, m)) <==>
                     k in t.ofchannel && t.ofchannel[k].sock == s && s in t.ofrw && t.ofrw[s].mgr == m))
  {
  }

  /**
   An unknown id changes nothing; a known one takes its channel to the new id, and the channels of the
   socket whose number is the DPID go.
   */
  lemma RenameOutcome(t: Tables, dp: U64, aux: U8, chosen: ChanKey)
    ensures var (t', status) := Rename(t, dp, aux, chosen);
            var direct, low := ChanKey(dp, aux), ChanKey(dp, dp % 256);
            && t'.ofdev == t.ofdev && t'.ofrw == t.ofrw
            && (status == EINVAL <==> direct !in t.ofchannel && low !in t.ofchannel)
            && (status == EINVAL ==> t' == t)
            && (status != EINVAL ==>
                  && status == OK && chosen in t'.ofchannel
                  && t'.ofchannel[chosen] == t.ofchannel[if direct in t.ofchannel then direct else low]
                  && (forall k :: k != chosen ==>
                        (k in t'.ofchannel <==> k in t.ofchannel && t.ofchannel[k].sock != ToInt(dp)))
                  && (forall k :: k != chosen && k in t'.ofchannel ==> t'.ofchannel[k] == t.ofchannel[k]))
  {
  }

  /** What the library expects of a rename: the DPID is the number of the channel's own socket. */
  predicate MayRename(t: Tables, dp: U64, aux: U8, chosen: ChanKey) {
    match Resolve(t, dp, aux)
    case None => true
    case Some(k) => t.ofchannel[k].sock == ToInt(dp) || chosen == k
  }

  /**
   Renaming keeps the invariant exactly when the DPID given is the number of the channel's own socket,
   or nothing is renamed at all.
   */
  lemma RenameKeepsInvIff(t: Tables, dp: U64, aux: U8, chosen: ChanKey)
    requires TablesInv(t)
    ensures TablesInv(Rename(t, dp, aux, chosen).0) <==> MayRename(t, dp, aux, chosen)
  {
    if Resolve(t, dp, aux).None? {
      return;
    }
    var k := Resolve(t, dp, aux).value;
    var t' := Rename(t, dp, aux, chosen).0;
    if t.ofchannel[k].sock != ToInt(dp) && chosen != k {
      assert k in t'.ofchannel && chosen in t'.ofchannel;
      assert t'.ofchannel[k].sock == t'.ofchannel[chosen].sock;
    } else {
      RebindKeepsChannels(t, k, ToInt(dp), chosen);
    }
  }

  lemma RebindKeepsChannels(t: Tables, k: ChanKey, n: int, chosen: ChanKey)
    requires ChannelsMatch(t) && k in t.ofchannel && (t.ofchannel[k].sock == n || chosen == k)
    ensures ChannelsMatch(t.(ofchannel := DelChannels(t.ofchannel, n)[chosen := t.ofchannel[k]]))
  {
  }

  /** One key goes and another comes: the size is kept if the other was not there. */
  lemma RekeyKeepsSize<K, V>(m: map<K, V>, k: K, l: K, v: V)
    requires k in m && l !in m
    ensures |(m - {k})[l := v]| == |m|
  {
    assert (m - {k}).Keys == m.Keys - {k};
    assert (m - {k})[l := v].Keys == m.Keys - {k} + {l};
    assert |m.Keys - {k}| == |m.Keys| - 1;
    assert |(m - {k})[l := v].Keys| == |m.Keys|;
  }

  lemma OneChannelPerSocket(t: Tables, k: ChanKey)
    requires ChannelsMatch(t) && k in t.ofchannel
    ensures DelChannels(t.ofchannel, t.ofchannel[k].sock) == t.ofchannel - {k}
    ensures t.ofchannel[k].sock in t.ofrw
  {
  }

  /** Exactly one key is replaced: same socket and statistics, every other channel as it was. */
  lemma RenameReplacesOneKey(t: Tables, dp: U64, aux: U8, chosen: ChanKey)
    requires TablesInv(t) && Resolve(t, dp, aux).Some?
    requires t.ofchannel[Resolve(t, dp, aux).value].sock == ToInt(dp)
    ensures var k := Resolve(t, dp, aux).value; var t' := Rename(t, dp, aux, chosen).0;
            && t'.ofchannel == (t.ofchannel - {k})[chosen := t.ofchannel[k]]
            && t'.ofdev == t.ofdev && t'.ofrw == t.ofrw
            && (chosen !in t.ofchannel ==> |t'.ofchannel| == |t.ofchannel|)
    ensures SendTarget(Rename(t, dp, aux, chosen).0, chosen.dpId, chosen.auxId) == SendTarget(t, dp, aux)
    ensures SendTarget(t, dp, aux).Some?
  {
    var k := Resolve(t, dp, aux).value;
    OneChannelPerSocket(t, k);
    if chosen !in t.ofchannel {
      RekeyKeepsSize(t.ofchannel, k, chosen, t.ofchannel[k]);
    }
    NewKeyLeadsThere(Rename(t, dp, aux, chosen).0, chosen);
  }

  lemma NewKeyLeadsThere(t: Tables, key: ChanKey)
    requires key in t.ofchannel && t.ofchannel[key].sock in t.ofrw
    ensures var s := t.ofchannel[key].sock; SendTarget(t, key.dpId, key.auxId) == Some((s, t.ofrw[s].mgr))
  {
    assert ChanKey(key.dpId, key.auxId) == key;
  }

  /** A dummy channel is found whatever aux id the caller passes along, and renames cleanly. */
  lemma DummyIsRenamable(t: Tables, s: Fd, aux: U8)
    requires TablesInv(t) && DummyKey(s) in t.ofchannel && t.ofchannel[DummyKey(s)].sock == s
    requires ChanKey(s, aux) in t.ofchannel ==> aux == ToAux(s)
    ensures Resolve(t, s, aux) == Some(DummyKey(s))
    ensures t.ofchannel[DummyKey(s)].sock == ToInt(s)
    ensures forall chosen :: TablesInv(Rename(t, s, aux, chosen).0)
  {
    DummyNamesItsSocket(s);
    forall chosen ensures TablesInv(Rename(t, s, aux, chosen).0) {
      RenameKeepsInvIff(t, s, aux, chosen);
    }
  }

  // ---------------------------------------------------------------------------------------------
  // Draining a device
  // ---------------------------------------------------------------------------------------------

  /** Closing every socket of a list, front to back. */
  function DrainList(t: Tables, l: seq<Fd>): Tables
    decreases |l|
  {
    if l == [] then t else DrainList(DelSocket(t, l[0]), l[1..])
  }

  function DeviceOf(t: Tables, s: Fd): Option<DevKey> {
    if s in t.ofrw then Some(t.ofrw[s].dev) else None
  }

  /** Everything that belongs to device d taken out, everything else as it was. */
  ghost function Without(t: Tables, d: DevKey): Tables {
    Tables(t.ofdev[d := []],
           map s | s in t.ofrw && t.ofrw[s].dev != d :: t.ofrw[s],
           map k | k in t.ofchannel && DeviceOf(t, t.ofchannel[k].sock) != Some(d) :: t.ofchannel[k])
  }

  lemma RemoveHead(l: seq<Fd>)
    requires l != []
    ensures Remove(l, l[0]) == l[1..]
  {
    assert IndexOf(l, l[0]) == 0;
  }

  /** Deleting one socket of d changes nothing outside d. */
  lemma DelStaysInside(t: Tables, s: Fd, d: DevKey)
    requires s in t.ofrw && t.ofrw[s].dev == d && d in t.ofdev
    ensures Without(DelSocket(t, s), d) == Without(t, d)
  {
    var t' := DelSocket(t, s);
    assert t'.ofdev[d := []] == t.ofdev[d := []];
    assert Without(t', d).ofrw == Without(t, d).ofrw;
    assert forall x :: x != s ==> DeviceOf(t', x) == DeviceOf(t, x);
    assert Without(t', d).ofchannel == Without(t, d).ofchannel;
  }

  /** One pass of the drain loop: the front socket leaves, the rest of the list is what remains to do. */
  lemma DrainStep(t: Tables, d: DevKey)
    requires TablesInv(t) && d in t.ofdev && t.ofdev[d] != []
    ensures var s := t.ofdev[d][0];
            && s in t.ofrw && TablesInv(DelSocket(t, s))
            && DelSocket(t, s).ofdev == t.ofdev[d := t.ofdev[d][1..]]
            && Without(DelSocket(t, s), d) == Without(t, d)
  {
    var s := t.ofdev[d][0];
    assert s in t.ofdev[d];
    DelKeepsInv(t, s);
    RemoveHead(t.ofdev[d]);
    DelStaysInside(t, s, d);
  }

  lemma {:induction false} DrainIsExact(t: Tables, d: DevKey)
    requires TablesInv(t) && d in t.ofdev
    ensures DrainList(t, t.ofdev[d]) == Without(t, d)
    ensures TablesInv(Without(t, d))
    decreases |t.ofdev[d]|
  {
    if t.ofdev[d] == [] {
      forall s | s in t.ofrw ensures t.ofrw[s].dev != d {
        assert s in t.ofdev[t.ofrw[s].dev];
      }
      assert Without(t, d).ofdev == t.ofdev;
      assert Without(t, d).ofrw == t.ofrw;
      assert Without(t, d).ofchannel == t.ofchannel;
    } else {
      DrainStep(t, d);
      DrainIsExact(DelSocket(t, t.ofdev[d][0]), d);
    }
  }

  /** A device without sockets can be forgotten. */
  lemma ForgetKeepsInv(t: Tables, d: DevKey)
    requires TablesInv(t) && d in t.ofdev && t.ofdev[d] == []
    ensures TablesInv(t.(ofdev := t.ofdev - {d}))
  {
  }

  /** The loop of cc_of_dev_free_lockfree with a step budget: a socket not found repeats the same link. */
  function DrainCursor(t: Tables, cursor: seq<Fd>, budget: nat): Option<Tables>
    decreases budget
  {
    if cursor == [] then Some(t)
    else if budget == 0 then None
    else if cursor[0] !in t.ofrw then DrainCursor(t, cursor, budget - 1)
    else DrainCursor(DelSocket(t, cursor[0]), cursor[1..], budget - 1)
  }

  ghost predicate Drainable(t: Tables, l: seq<Fd>) {
    NoDup(l) && forall i :: 0 <= i < |l| ==> l[i] in t.ofrw
  }

  lemma {:induction false} DrainEnds(t: Tables, l: seq<Fd>)
    requires Drainable(t, l)
    ensures DrainCursor(t, l, |l|) == Some(DrainList(t, l))
    decreases |l|
  {
    if l != [] {
      DrainEnds(DelSocket(t, l[0]), l[1..]);
    }
  }

  lemma {:induction false} EndedWasDrainable(t: Tables, l: seq<Fd>, n: nat)
    requires DrainCursor(t, l, n).Some?
    ensures Drainable(t, l)
    decreases n
  {
    if l != [] {
      if l[0] !in t.ofrw {
        EndedWasDrainable(t, l, n - 1);
      } else {
        EndedWasDrainable(DelSocket(t, l[0]), l[1..], n - 1);
        assert l == [l[0]] + l[1..];
      }
    }
  }

  /** From any tables at all, the drain loop ends exactly on lists of distinct registered sockets. */
  lemma DrainEndsIff(t: Tables, l: seq<Fd>)
    ensures (exists n :: DrainCursor(t, l, n).Some?) <==> Drainable(t, l)
  {
    if Drainable(t, l) {
      DrainEnds(t, l);
    }
    forall n: nat | DrainCursor(t, l, n).Some? ensures Drainable(t, l) {
      EndedWasDrainable(t, l, n);
    }
  }

  lemma InvMakesDrainable(t: Tables, d: DevKey)
    requires TablesInv(t) && d in t.ofdev
    ensures Drainable(t, t.ofdev[d])
  {
    assert forall i :: 0 <= i < |t.ofdev[d]| ==> t.ofdev[d][i] in t.ofdev[d];
  }

  // ---------------------------------------------------------------------------------------------
  // Shutdown
  // ---------------------------------------------------------------------------------------------

  /** One device of the shutdown walk: drained, and forgotten unless closing its listen socket fails. */
  function ShutdownOne(t: Tables, d: DevKey, closeFails: bool): Tables
    requires d in t.ofdev
  {
    var t' := DrainList(t, t.ofdev[d]);
    if closeFails then t' else t'.(ofdev := t'.ofdev - {d})
  }

  ghost predicate Drained(t: Tables, ds: set<DevKey>) {
    forall s :: s in t.ofrw ==> t.ofrw[s].dev !in ds
  }

  lemma ShutdownOneDrains(t: Tables, d: DevKey, closeFails: bool, done: set<DevKey>)
    requires TablesInv(t) && d in t.ofdev && Drained(t, done)
    ensures var t' := ShutdownOne(t, d, closeFails);
            && TablesInv(t') && Drained(t', done + {d})
            && t'.ofdev.Keys == if closeFails then t.ofdev.Keys else t.ofdev.Keys - {d}
  {
    DrainIsExact(t, d);
    var w := Without(t, d);
    assert w.ofdev.Keys == t.ofdev.Keys;
    assert Drained(w, done + {d});
    if !closeFails {
      var t' := ShutdownOne(t, d, closeFails);
      assert t'.ofdev == w.ofdev - {d};
    }
  }

  /** Nothing registered belongs to no device: once every device is drained both tables are empty. */
  lemma AllDrainedMeansEmpty(t: Tables, ds: set<DevKey>)
    requires TablesInv(t) && Drained(t, ds) && t.ofdev.Keys <= ds
    ensures t.ofrw == map[] && t.ofchannel == map[]
  {
    assert t.ofrw.Keys == {};
    assert t.ofchannel.Keys == {};
  }

  /** The shutdown walk over the devices in some order; `fails` are the listen sockets close(2) refuses. */
  function ShutdownWalk(t: Tables, order: seq<DevKey>, fails: set<DevKey>): Tables
    decreases |order|
  {
    if order == [] then t
    else if order[0] !in t.ofdev then ShutdownWalk(t, order[1..], fails)
    else ShutdownWalk(ShutdownOne(t, order[0], order[0] in fails), order[1..], fails)
  }

  lemma {:induction false} ShutdownWalkDrains(t: Tables, order: seq<DevKey>, fails: set<DevKey>, done: set<DevKey>)
    requires TablesInv(t) && Drained(t, done) && t.ofdev.Keys <= done + Elems(order)
    ensures var t' := ShutdownWalk(t, order, fails);
            TablesInv(t') && Drained(t', done + Elems(order)) && t'.ofdev.Keys <= done + Elems(order)
    decreases |order|
  {
    if order != [] {
      var d := order[0];
      assert Elems(order) == {d} + Elems(order[1..]);
      assert done + Elems(order) == done + {d} + Elems(order[1..]);
      if d in t.ofdev {
        ShutdownOneDrains(t, d, d in fails, done);
        ShutdownWalkDrains(ShutdownOne(t, d, d in fails), order[1..], fails, done + {d});
      } else {
        assert Drained(t, done + {d}) by {
          assert forall s :: s in t.ofrw ==> t.ofrw[s].dev in t.ofdev;
        }
        ShutdownWalkDrains(t, order[1..], fails, done + {d});
      }
    }
  }

  /** After a walk over all devices, in any order and with any closes failing, both tables are empty. */
  lemma ShutdownEmptiesTables(t: Tables, order: seq<DevKey>, fails: set<DevKey>)
    requires TablesInv(t) && t.ofdev.Keys <= Elems(order)
    ensures var t' := ShutdownWalk(t, order, fails); t'.ofrw == map[] && t'.ofchannel == map[]
  {
    ShutdownWalkDrains(t, order, fails, {});
    assert {} + Elems(order) == Elems(order);
    AllDrainedMeansEmpty(ShutdownWalk(t, order, fails), Elems(order));
  }
}
