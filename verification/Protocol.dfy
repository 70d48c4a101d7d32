/**
 * The code table shared by the kernel module and the daemon.
 *
 * A slot's status word passes ownership back and forth: while it is `normal` the kernel may run
 * the code block and the daemon keeps off; in every other used state the daemon may write the
 * block and the kernel keeps off.
 */
module Protocol {
  import opened Words

  const UN_USED := -2
  const UN_INIT := -1
  const NORMAL := 0
  const CALL_MISS := 1
  const IJ_MISS := 2

  const MAX_EXE := 511
  const MAX_ADDED := 63
  const BLOCK_BYTES := 4096 * 160
  const MAX_PAY := 4000
  const EXE_INFO_BYTES := 56
  const PAGE := 4096

  datatype Exe = Exe(status: int, pid: int, rip: Word, block: seq<Byte>, jumpFrom: Word, tgtAddr: Word, success: nat,
      fail: nat)
  datatype Key = Key(pid: int, rip: Word)

  function KeyOf(e: Exe): Key { Key(e.pid, e.rip) }

  /** `zz_hash`: 32-bit unsigned arithmetic on the low halves. */
  function Hash(pid: int, ip: Word): bv32 {
    (((ip % 0x1_0000_0000) as bv32) ^ 1674567091) + (((pid % 0x1_0000_0000) as bv32) ^ 569809)
  }

  /** `get_exe`: the only slot a key can be in. */
  function Slot(k: Key): (i: nat)
    ensures i < MAX_EXE
  {
    Hash(k.pid, k.rip) as int % MAX_EXE
  }

  type Table = t: seq<Exe> | |t| == MAX_EXE witness seq(MAX_EXE, _ => Exe(UN_USED, 0, 0, [], 0, 0, 0, 0))

  predicate Used(t: Table, i: nat) { i < MAX_EXE && t[i].status != UN_USED }

  function UsedSlots(t: Table): set<nat> { set i: nat | 0 <= i < MAX_EXE && Used(t, i) }

  // ---------------------------------------------------------------- kernel steps

  /** `exe_add`: claim the slot of a key, unless it is taken or 63 are in use. */
  function AddStep(t: Table, added: nat, k: Key, mem: seq<Byte>): (Table, nat) {
    var i := Slot(k);
    if t[i].status != UN_USED || added > 62 then (t, added)
    else (t[i := t[i].(status := UN_INIT, pid := k.pid, rip := k.rip, block := mem)], added + 1)
  }

  /** Copy into a block at an offset. */
  function Patched(b: seq<Byte>, off: nat, data: seq<Byte>): (r: seq<Byte>)
    requires off + |data| <= |b|
    ensures |r| == |b| && r[..off] == b[..off] && r[off..off + |data|] == data && r[off + |data|..] == b[off + |data|..]
  {
    b[..off] + data + b[off + |data|..]
  }

  datatype Packet = Packet(status: int, k: Key, offset: nat, payload: seq<Byte>)

  predicate Fits(t: Table, p: Packet) {
    KeyOf(t[Slot(p.k)]) == p.k ==> p.offset + |p.payload| <= |t[Slot(p.k)].block|
  }

  /** What the daemon keeps to: a packet for the key in its slot is for a used slot and does not free it. */
  predicate Storable(t: Table, p: Packet) {
    Fits(t, p) && (KeyOf(t[Slot(p.k)]) == p.k ==> Used(t, Slot(p.k)) && p.status != UN_USED)
  }

  /** `sysfs_store`: write a chunk and the status it carries, if the slot holds that key. */
  function StoreStep(t: Table, p: Packet): Table
    requires Fits(t, p)
  {
    var i := Slot(p.k);
    if KeyOf(t[i]) != p.k then t
    else t[i := t[i].(block := Patched(t[i].block, p.offset, p.payload), status := p.status)]
  }

  /** `exe_on_call` after the code returned with `arg`: count, and report a miss if misses prevail. */
  function ReturnStep(e: Exe, arg: Word, ip: Word, legal: bool): Exe {
    if arg == NORMAL then (if legal then e.(success := e.success + 1) else e)
    else if e.success < e.fail && arg == CALL_MISS then e.(tgtAddr := ip, status := CALL_MISS, fail := e.fail + 1)
    else if e.success < e.fail then e.(tgtAddr := ip, jumpFrom := arg, status := IJ_MISS, fail := e.fail + 1)
    else e.(fail := e.fail + 1)
  }

  /** A round reports when it ended at a miss and misses prevail. */
  predicate Reports(e: Exe, arg: Word) { arg != 0 && e.success < e.fail }

  /** What the report of an entry stands for: an untranslated callee, or a target its site does not list. */
  datatype Report = Callee(addr: Word) | Target(site: Word, addr: Word)

  /** What the daemon reads from an entry. */
  function Read(e: Exe): Option<Report> {
    if e.status == CALL_MISS then Some(Callee(e.tgtAddr))
    else if e.status == IJ_MISS then Some(Target(e.jumpFrom, e.tgtAddr))
    else None
  }

  /**
   * One round, field by field.  A system call the table serves counts as a success, every miss as
   * a failure; the key and the code stay; and the daemon reads the miss at `ip` with the reason
   * `arg` if and only if the round reports, otherwise status and addresses are as they were.
   */
  ghost predicate Rounded(e: Exe, r: Exe, arg: Word, ip: Word, legal: bool) {
    && r.success == e.success + (if arg == 0 && legal then 1 else 0)
    && r.fail == e.fail + (if arg != 0 then 1 else 0)
    && r.pid == e.pid && r.rip == e.rip && r.block == e.block
    && (Reports(e, arg) ==> Read(r) == Some(if arg == 1 then Callee(ip) else Target(arg, ip)))
    && (Reports(e, arg) ==> r.tgtAddr == ip && (arg != 1 ==> r.jumpFrom == arg))
    && (!Reports(e, arg) ==> r.status == e.status && r.tgtAddr == e.tgtAddr && r.jumpFrom == e.jumpFrom)
    && (arg == 1 ==> r.jumpFrom == e.jumpFrom)
  }

  lemma ReturnRounds(e: Exe, arg: Word, ip: Word, legal: bool)
    ensures Rounded(e, ReturnStep(e, arg, ip, legal), arg, ip, legal)
    ensures e.status == NORMAL ==> (ReturnStep(e, arg, ip, legal).status != NORMAL <==> Reports(e, arg))
  {
  }

  class Kernel {
    const exes: array<Exe>
    var added: nat

    ghost predicate Valid()
      reads this, exes
    {
      exes.Length == MAX_EXE && TableInv(exes[..], added)
    }

    constructor (junk: Exe)
      ensures Valid() && added == 0 && fresh(exes) && forall i :: 0 <= i < exes.Length ==> exes[i].status == UN_USED
    {
      exes := new Exe[MAX_EXE](_ => junk.(status := UN_USED));
      added := 0;
      new;
      var t: Table := exes[..];
      assert UsedSlots(t) == {};
    }

    method ExeAdd(k: Key, mem: seq<Byte>)
      requires Valid() && |mem| == BLOCK_BYTES
      modifies exes, this`added
      ensures Valid() && (exes[..], added) == AddStep(old(exes[..]), old(added), k, mem)
    {
      ghost var t: Table := exes[..];
      AddKeeps(t, added, k, mem);
      var i := Slot(k);
      if exes[i].status != UN_USED { return; }
      if added > 62 { return; }
      added := added + 1;
      exes[i] := exes[i].(pid := k.pid, rip := k.rip);
      exes[i] := exes[i].(block := mem);
      exes[i] := exes[i].(status := UN_INIT);
      assert exes[..] == AddStep(t, old(added), k, mem).0;
    }

    method SysfsStore(p: Packet)
      requires Valid() && Storable(exes[..], p)
      modifies exes
      ensures Valid() && exes[..] == StoreStep(old(exes[..]), p)
    {
      ghost var t: Table := exes[..];
      StoreKeeps(t, added, p);
      var i := Slot(p.k);
      if exes[i].rip == p.k.rip && exes[i].pid == p.k.pid {
        exes[i] := exes[i].(block := Patched(exes[i].block, p.offset, p.payload));
        exes[i] := exes[i].(status := p.status);
        assert exes[..] == StoreStep(t, p);
      }
    }

    /** The tail of one `exe_on_call` round: counters, and the status when a miss is reported. */
    method OnReturn(i: nat, arg: Word, ip: Word, legal: bool)
      requires Valid() && Used(exes[..], i) && exes[i].status == NORMAL
      modifies exes
      ensures Valid() && exes[..] == old(exes[..])[i := ReturnStep(old(exes[i]), arg, ip, legal)]
      ensures Rounded(old(exes[i]), exes[i], arg, ip, legal)
    {
      ReturnRounds(exes[i], arg, ip, legal);
      ghost var t: Table := exes[..];
      if arg == NORMAL {
        if legal { exes[i] := exes[i].(success := exes[i].success + 1); }
      } else if exes[i].success < exes[i].fail && arg == CALL_MISS {
        exes[i] := exes[i].(tgtAddr := ip);
        exes[i] := exes[i].(status := CALL_MISS);
        exes[i] := exes[i].(fail := exes[i].fail + 1);
      } else if exes[i].success < exes[i].fail {
        exes[i] := exes[i].(tgtAddr := ip);
        exes[i] := exes[i].(jumpFrom := arg);
        exes[i] := exes[i].(status := IJ_MISS);
        exes[i] := exes[i].(fail := exes[i].fail + 1);
      } else {
        exes[i] := exes[i].(fail := exes[i].fail + 1);
      }
      assert exes[..] == t[i := ReturnStep(t[i], arg, ip, legal)];
      ReturnKeeps(t, added, i, arg, ip, legal);
    }

    /** `sysfs_show`: the used entries in slot order; they fit the page the kernel hands out. */
    method SysfsShow() returns (out: seq<Exe>, len: nat)
      requires Valid()
      ensures out == Shown(exes[..], 0) && len == EXE_INFO_BYTES * |out|
      ensures |out| == added && len <= MAX_ADDED * EXE_INFO_BYTES < PAGE
    {
      hide Shown, Slot;
      ghost var t: Table := exes[..];
      out, len := [], 0;
      for i := 0 to MAX_EXE
        invariant out + Shown(t, i) == Shown(t, 0) && len == EXE_INFO_BYTES * |out|
      {
        ShownStep(t, i);
        if exes[i].status != UN_USED {
          out := out + [exes[i]];
          len := len + EXE_INFO_BYTES;
        }
      }
      ShownEnd(t);
      ShownCount(t, 0);
      assert UsedFrom(t, 0) == UsedSlots(t);
    }
  }

  // ---------------------------------------------------------------- the table invariant

  /** Every used slot holds a key that hashes to it, and `added` counts the used slots. */
  ghost predicate TableInv(t: Table, added: nat) {
    && (forall i :: 0 <= i < MAX_EXE && Used(t, i) ==> Slot(KeyOf(t[i])) == i && |t[i].block| == BLOCK_BYTES)
    && |UsedSlots(t)| == added <= MAX_ADDED
  }

  lemma AddKeeps(t: Table, added: nat, k: Key, mem: seq<Byte>)
    requires TableInv(t, added) && |mem| == BLOCK_BYTES
    ensures TableInv(AddStep(t, added, k, mem).0, AddStep(t, added, k, mem).1)
  {
    hide Slot;
    var i := Slot(k);
    if t[i].status == UN_USED && added <= 62 {
      var t' := AddStep(t, added, k, mem).0;
      assert UsedSlots(t') == UsedSlots(t) + {i};
    }
  }

  /**
   * What `exe_add` does: a free slot goes to the key, to be compiled, if fewer than 63 are in use;
   * every other slot, and everything else, stays.
   */
  lemma AddClaims(t: Table, added: nat, k: Key, mem: seq<Byte>)
    ensures
      var (t', n) := AddStep(t, added, k, mem);
      var claims := !Used(t, Slot(k)) && added < 63;
      && n == added + (if claims then 1 else 0)
      && (forall i :: 0 <= i < MAX_EXE && (i != Slot(k) || !claims) ==> t'[i] == t[i])
      && (claims ==>
            && Used(t', Slot(k)) && KeyOf(t'[Slot(k)]) == k && t'[Slot(k)].status == UN_INIT
            && t'[Slot(k)].block == mem && t'[Slot(k)].success == t[Slot(k)].success
            && t'[Slot(k)].fail == t[Slot(k)].fail)
  {
    hide Slot;
  }

  /** What `sysfs_store` does: the chunk and the status, in the slot of the key if it is there, and nothing else. */
  lemma StoreFields(t: Table, p: Packet)
    requires Fits(t, p)
    ensures
      var (i, t') := (Slot(p.k), StoreStep(t, p));
      && (forall j :: 0 <= j < MAX_EXE && j != i ==> t'[j] == t[j])
      && (KeyOf(t[i]) != p.k ==> t' == t)
      && (KeyOf(t[i]) == p.k ==>
            && t'[i].status == p.status && |t'[i].block| == |t[i].block|
            && (forall b :: 0 <= b < |t[i].block| ==>
                  t'[i].block[b] ==
                  if p.offset <= b < p.offset + |p.payload| then p.payload[b - p.offset] else t[i].block[b])
            && KeyOf(t'[i]) == p.k && t'[i].success == t[i].success && t'[i].fail == t[i].fail
            && t'[i].tgtAddr == t[i].tgtAddr && t'[i].jumpFrom == t[i].jumpFrom)
  {
    hide Slot;
  }

  lemma StoreKeeps(t: Table, added: nat, p: Packet)
    requires TableInv(t, added) && Storable(t, p)
    ensures TableInv(StoreStep(t, p), added)
  {
    hide Slot;
    assert UsedSlots(StoreStep(t, p)) == UsedSlots(t);
  }

  lemma ReturnKeeps(t: Table, added: nat, i: nat, arg: Word, ip: Word, legal: bool)
    requires TableInv(t, added) && Used(t, i) && t[i].status == NORMAL
    ensures TableInv(t[i := ReturnStep(t[i], arg, ip, legal)], added)
  {
    hide Slot;
    assert UsedSlots(t[i := ReturnStep(t[i], arg, ip, legal)]) == UsedSlots(t);
  }

  /** No key occupies two slots. */
  lemma KeysDistinct(t: Table, added: nat, i: nat, j: nat)
    requires TableInv(t, added) && Used(t, i) && Used(t, j) && KeyOf(t[i]) == KeyOf(t[j])
    ensures i == j
  {
  }

  /** The used entries from slot i on. */
  function Shown(t: Table, i: nat): seq<Exe>
    requires i <= MAX_EXE
    decreases MAX_EXE - i
  {
    if i == MAX_EXE then [] else (if t[i].status != UN_USED then [t[i]] else []) + Shown(t, i + 1)
  }

  lemma ShownStep(t: Table, i: nat)
    requires i < MAX_EXE
    ensures Shown(t, i) == (if t[i].status != UN_USED then [t[i]] else []) + Shown(t, i + 1)
  {
  }

  lemma ShownEnd(t: Table)
    ensures Shown(t, MAX_EXE) == []
  {
  }

  /** What is shown is the used entries, each once and in slot order. */
  lemma {:induction false} ShownSlots(t: Table, i: nat) returns (at: seq<nat>)
    requires i <= MAX_EXE
    ensures |at| == |Shown(t, i)|
    ensures forall j :: 0 <= j < |at| ==> i <= at[j] < MAX_EXE && Used(t, at[j]) && Shown(t, i)[j] == t[at[j]]
    ensures forall j, k :: 0 <= j < k < |at| ==> at[j] < at[k]
    ensures forall s :: i <= s < MAX_EXE && Used(t, s) ==> s in at
    decreases MAX_EXE - i
  {
    if i == MAX_EXE {
      at := [];
    } else {
      var rest := ShownSlots(t, i + 1);
      at := (if t[i].status != UN_USED then [i] else []) + rest;
      ShownStep(t, i);
    }
  }

  function UsedFrom(t: Table, i: nat): set<nat> { set j: nat | i <= j < MAX_EXE && Used(t, j) }

  lemma {:induction false} ShownCount(t: Table, i: nat)
    requires i <= MAX_EXE
    ensures |Shown(t, i)| == |UsedFrom(t, i)|
    decreases MAX_EXE - i
  {
    if i < MAX_EXE {
      ShownCount(t, i + 1);
      assert UsedFrom(t, i) == UsedFrom(t, i + 1) + if Used(t, i) then {i} else {};
    }
  }
}
