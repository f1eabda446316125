/** The integrity pool: registered blocks, their checksums, and a checksum over the list. */
module MemoryPool {
  import opened Crc32
  import opened Words

  const NULLPTR: nat := 0

  datatype BlockInfo = BlockInfo(address: nat, size: nat, checksum: bv32)

  /** The bytes that memory holds in a block. */
  function Bytes(memory: nat -> bv8, address: nat, size: nat): (s: seq<bv8>)
    ensures |s| == size
  {
    seq(size, i requires 0 <= i => memory(address + i))
  }

  lemma BytesInOrder(memory: nat -> bv8, address: nat, size: nat, i: nat)
    requires i < size
    ensures Bytes(memory, address, size)[i] == memory(address + i)
  {
  }

  function Rotate7(h: bv32): bv32 { (h << 7) | (h >> 25) }

  /** The pool checksum over a list of blocks. */
  function Fold(blocks: seq<BlockInfo>): bv32 {
    if blocks == [] then 0
    else Rotate7(Xor(Fold(blocks[..|blocks| - 1]), blocks[|blocks| - 1].checksum))
  }

  /** The list without the blocks at one address. */
  function Without(blocks: seq<BlockInfo>, address: nat): (rest: seq<BlockInfo>)
    ensures forall b :: b in rest <==> b in blocks && b.address != address
  {
    if blocks == [] then []
    else
      var last := blocks[|blocks| - 1];
      Without(blocks[..|blocks| - 1], address) + if last.address == address then [] else [last]
  }

  ghost predicate DistinctAddresses(blocks: seq<BlockInfo>) {
    forall i, j | 0 <= i < j < |blocks| :: blocks[i].address != blocks[j].address
  }

  ghost predicate HasAddress(blocks: seq<BlockInfo>, address: nat) {
    exists i | 0 <= i < |blocks| :: blocks[i].address == address
  }

  lemma {:induction false} WithoutIsDistinct(blocks: seq<BlockInfo>, address: nat)
    requires DistinctAddresses(blocks)
    ensures DistinctAddresses(Without(blocks, address))
  {
    if blocks != [] {
      var front, last := blocks[..|blocks| - 1], blocks[|blocks| - 1];
      WithoutIsDistinct(front, address);
      var rest := Without(front, address);
      forall i | 0 <= i < |rest| ensures rest[i].address != last.address {
        assert rest[i] in front;
      }
    }
  }

  /** Without a block at the address nothing goes. */
  lemma {:induction false} WithoutAbsent(blocks: seq<BlockInfo>, address: nat)
    requires !HasAddress(blocks, address)
    ensures Without(blocks, address) == blocks
  {
    if blocks != [] {
      hide Without;
      var n := |blocks| - 1;
      WithoutLast(blocks, address);
      assert blocks[n].address != address;
      forall i | 0 <= i < n ensures blocks[..n][i].address != address {
        assert blocks[i].address != address;
      }
      WithoutAbsent(blocks[..n], address);
      assert blocks == blocks[..n] + [blocks[n]];
    }
  }

  lemma CutBeforeLast(blocks: seq<BlockInfo>, k: nat)
    requires k < |blocks| - 1
    ensures var n := |blocks| - 1;
            blocks[..k] + blocks[k + 1..] == blocks[..n][..k] + blocks[..n][k + 1..] + [blocks[n]]
  {
  }

  lemma WithoutLast(blocks: seq<BlockInfo>, address: nat)
    requires blocks != []
    ensures var n := |blocks| - 1;
            var kept := if blocks[n].address == address then [] else [blocks[n]];
            Without(blocks, address) == Without(blocks[..n], address) + kept
  {
  }

  /** With one, exactly that one goes, and the others keep their order. */
  lemma {:induction false} WithoutPresent(blocks: seq<BlockInfo>, address: nat, k: nat)
    requires DistinctAddresses(blocks) && k < |blocks| && blocks[k].address == address
    ensures Without(blocks, address) == blocks[..k] + blocks[k + 1..]
  {
    hide Without;
    var n := |blocks| - 1;
    WithoutLast(blocks, address);
    if k < n {
      WithoutPresent(blocks[..n], address, k);
      CutBeforeLast(blocks, k);
    } else {
      WithoutAbsent(blocks[..n], address);
      assert blocks[n + 1..] == [];
    }
  }

  /** Unregistering, without a recursion. */
  ghost predicate Removed(before: seq<BlockInfo>, after: seq<BlockInfo>, address: nat) {
    && (!HasAddress(before, address) ==> after == before)
    && (forall k | 0 <= k < |before| && before[k].address == address :: after == before[..k] + before[k + 1..])
  }

  lemma WithoutRemoves(blocks: seq<BlockInfo>, address: nat)
    requires DistinctAddresses(blocks)
    ensures Removed(blocks, Without(blocks, address), address)
  {
    hide Without, HasAddress, DistinctAddresses;
    if !HasAddress(blocks, address) {
      WithoutAbsent(blocks, address);
    }
    forall k | 0 <= k < |blocks| && blocks[k].address == address
      ensures Without(blocks, address) == blocks[..k] + blocks[k + 1..]
    {
      WithoutPresent(blocks, address, k);
    }
  }

  /** The fold by hand: seven bits to the left, and the top seven come back at the bottom. */
  lemma FoldOfOne(block: BlockInfo)
    ensures Fold([block]) == block.checksum * 128 + block.checksum / 0x200_0000
    ensures Fold([]) == 0
  {
    hide Xor;
    assert Fold([]) == 0;
    XorWithZero(block.checksum);
    RotateByHand(block.checksum);
  }

  /** Two blocks with checksums 1 and 2: 1 becomes 128, combined with 2 it is 130, and that becomes 16640. */
  lemma FoldOfTwo(first: BlockInfo, second: BlockInfo)
    requires first.checksum == 1 && second.checksum == 2
    ensures Fold([first, second]) == 16640
  {
    assert [first, second][..1] == [first];
    FoldOfOne(first);
  }

  lemma RotateByHand(h: bv32)
    ensures Rotate7(h) == h * 128 + h / 0x200_0000
  {
  }

  lemma XorWithZero(h: bv32)
    ensures Xor(0, h) == h
  {
  }

  lemma FoldStep(blocks: seq<BlockInfo>, n: nat)
    requires n < |blocks|
    ensures Fold(blocks[..n + 1]) == Rotate7(Xor(Fold(blocks[..n]), blocks[n].checksum))
  {
    hide Rotate7, Xor;
    assert blocks[..n + 1][..n] == blocks[..n];
  }

  // ---------------------------------------------------------------- the list checksum detects a changed entry

  lemma Rotate7Injective(a: bv32, b: bv32)
    requires Rotate7(a) == Rotate7(b)
    ensures a == b
  {
  }

  /** Lists that differ in the checksum of one block fold to different values. */
  lemma {:induction false} FoldDetectsOneChange(s: seq<BlockInfo>, t: seq<BlockInfo>, at: nat)
    requires |s| == |t| && at < |s| && s[at].checksum != t[at].checksum
    requires forall i | 0 <= i < |s| && i != at :: s[i].checksum == t[i].checksum
    ensures Fold(s) != Fold(t)
  {
    hide Rotate7, Xor;
    var n := |s| - 1;
    var u, v := Fold(s[..n]), Fold(t[..n]);
    if at < n {
      FoldDetectsOneChange(s[..n], t[..n], at);
      if Fold(s) == Fold(t) {
        Rotate7Injective(Xor(u, s[n].checksum), Xor(v, s[n].checksum));
        XorInjective(u, v, s[n].checksum);
      }
    } else {
      SameFold(s[..n], t[..n]);
      if Fold(s) == Fold(t) {
        Rotate7Injective(Xor(u, s[n].checksum), Xor(u, t[n].checksum));
        XorCommutes(u, s[n].checksum);
        XorCommutes(u, t[n].checksum);
        XorInjective(s[n].checksum, t[n].checksum, u);
      }
    }
  }

  lemma {:induction false} SameFold(s: seq<BlockInfo>, t: seq<BlockInfo>)
    requires |s| == |t| && forall i | 0 <= i < |s| :: s[i].checksum == t[i].checksum
    ensures Fold(s) == Fold(t)
  {
    hide Rotate7, Xor;
    if s != [] {
      SameFold(s[..|s| - 1], t[..|t| - 1]);
    }
  }

  // ---------------------------------------------------------------- the table, built once

  function ShiftTimes(c: bv32, n: nat): bv32 {
    if n == 0 then c else Shift(ShiftTimes(c, n - 1))
  }

  lemma EightShifts(c: bv32)
    ensures ShiftTimes(c, 8) == Table(c)
  {
    hide Shift;
    assert ShiftTimes(c, 1) == Shift(c);
    assert ShiftTimes(c, 2) == Shift2(c);
    assert ShiftTimes(c, 3) == Shift(Shift2(c));
    assert ShiftTimes(c, 4) == Shift4(c);
    assert ShiftTimes(c, 5) == Shift(Shift4(c));
    assert ShiftTimes(c, 6) == Shift2(Shift4(c));
    assert ShiftTimes(c, 7) == Shift(Shift2(Shift4(c)));
  }

  function Entry(k: nat): bv32
    requires k < 256
  {
    Table(k as bv32)
  }

  class CrcTable {
    const entries: array<bv32>
    var initialized: bool

    ghost predicate Valid()
      reads this, entries
    {
      entries.Length == 256 && (initialized ==> forall i | 0 <= i < 256 :: entries[i] == Entry(i))
    }

    constructor ()
      ensures Valid() && fresh(entries)
    {
      entries := new bv32[256];
      initialized := false;
    }

    method InitTable()
      requires Valid()
      modifies this`initialized, entries
      ensures Valid() && initialized
    {
      hide Entry;
      if initialized {
        return;
      }
      for i := 0 to 256
        invariant forall k | 0 <= k < i :: entries[k] == Entry(k)
      {
        entries[i] := ComputeEntry(i);
      }
      initialized := true;
    }

    /** Eight steps of the register, one at a time. */
    method ComputeEntry(i: nat) returns (crc: bv32)
      requires i < 256
      ensures crc == Entry(i)
    {
      hide Shift, Table;
      crc := i as bv32;
      for j := 0 to 8
        invariant crc == ShiftTimes(i as bv32, j)
      {
        crc := ShiftOnce(crc);
      }
      EightShifts(i as bv32);
    }

    /** A step of the register as the table's loop writes it. */
    static method ShiftOnce(crc: bv32) returns (next: bv32)
      ensures next == Shift(crc)
    {
      next := (crc >> 1) ^ (if crc & 1 != 0 then 0xedb8_8320 else 0);
    }

    method Calculate(data: seq<bv8>) returns (crc: bv32)
      requires Valid()
      modifies this`initialized, entries
      ensures Valid() && initialized && crc == Crc(data)
    {
      hide Table, ByteStep, Complement;
      InitTable();
      crc := INITIAL;
      assert data[..0] == [];
      for i := 0 to |data|
        invariant Valid() && initialized && crc == Register(INITIAL, data[..i])
      {
        crc := LookUp(crc, data[i]);
        assert data[..i + 1][..i] == data[..i];
      }
      assert data[..|data|] == data;
      crc := Complement(crc);
    }

    method LookUp(crc: bv32, b: bv8) returns (next: bv32)
      requires Valid() && initialized
      ensures next == ByteStep(crc, b)
    {
      hide Table, Xor, LowByte, HighBytes;
      var index := LowByte(Xor(crc, b as bv32));
      IndexOf(index, crc, b);
      next := Xor(HighBytes(crc), entries[index as int]);
    }
  }

  lemma IndexOf(index: bv32, c: bv32, b: bv8)
    requires index == LowByte(Xor(c, b as bv32))
    ensures index as int < 256 && (index as int) as bv32 == index
  {
    assert index <= 255;
  }

  // ---------------------------------------------------------------- the pool

  function BlockHash(memory: nat -> bv8, address: nat, size: nat): bv32 {
    if address == NULLPTR || size == 0 then 0 else Crc(Bytes(memory, address, size))
  }

  class Pool {
    var allocations: seq<BlockInfo>
    var initialized: bool
    var checksum: bv32
    const table: CrcTable
    /** What each registered block held when it was registered. */
    ghost var registered: map<nat, seq<bv8>>

    ghost predicate Valid()
      reads this, table, table.entries
    {
      && table.Valid()
      && DistinctAddresses(allocations)
      && (forall b | b in allocations :: Recorded(b))
      && (initialized || allocations != [] ==> checksum == Fold(allocations))
    }

    ghost predicate Recorded(b: BlockInfo)
      reads this
    {
      && b.address != NULLPTR && b.size > 0
      && b.address in registered && |registered[b.address]| == b.size && b.checksum == Crc(registered[b.address])
    }

    constructor ()
      ensures Valid() && allocations == [] && !initialized && fresh(table) && fresh(table.entries)
    {
      allocations, initialized, checksum := [], false, 0;
      registered := map[];
      table := new CrcTable();
    }

    method InitializePool()
      requires Valid()
      modifies this
      ensures Valid() && initialized && allocations == [] && checksum == 0
    {
      allocations := [];
      initialized := true;
      checksum := 0;
    }

    method DestroyPool()
      requires Valid()
      modifies this
      ensures Valid() && !initialized && allocations == [] && checksum == old(checksum)
    {
      allocations := [];
      initialized := false;
    }

    method ComputeBlockHash(memory: nat -> bv8, address: nat, size: nat) returns (hash: bv32)
      requires table.Valid()
      modifies table`initialized, table.entries
      ensures table.Valid() && hash == BlockHash(memory, address, size)
      ensures hash == if address == 0 || size == 0 then 0 else Crc(Bytes(memory, address, size))
    {
      hide Crc, Table;
      if address == NULLPTR || size == 0 {
        return 0;
      }
      hash := table.Calculate(Bytes(memory, address, size));
    }

    method ComputePoolHash() returns (poolHash: bv32)
      ensures poolHash == Fold(allocations)
    {
      hide Rotate7, Xor;
      poolHash := 0;
      for i := 0 to |allocations|
        invariant poolHash == Fold(allocations[..i])
      {
        FoldStep(allocations, i);
        poolHash := Rotate7(Xor(poolHash, allocations[i].checksum));
      }
      assert allocations[..|allocations|] == allocations;
    }

    method IsRegistered(address: nat) returns (found: bool)
      ensures found <==> HasAddress(allocations, address)
    {
      for i := 0 to |allocations|
        invariant forall k | 0 <= k < i :: allocations[k].address != address
      {
        if allocations[i].address == address {
          return true;
        }
      }
      found := false;
    }

    /** Appends a new block with the checksum of what it holds now; a null, empty or known block changes nothing. */
    method RegisterBlock(memory: nat -> bv8, address: nat, size: nat)
      requires Valid()
      modifies this`allocations, this`checksum, this`registered, table`initialized, table.entries
      ensures Valid()
      ensures address == NULLPTR || size == 0 || HasAddress(old(allocations), address) ==>
        allocations == old(allocations) && checksum == old(checksum) && registered == old(registered)
      ensures !(address == NULLPTR || size == 0 || HasAddress(old(allocations), address)) ==>
        && allocations == old(allocations) + [BlockInfo(address, size, Crc(Bytes(memory, address, size)))]
        && checksum == Fold(allocations) && registered == old(registered)[address := Bytes(memory, address, size)]
    {
      hide Crc, Fold, CrcTable.Valid;
      if address == NULLPTR || size == 0 {
        return;
      }
      var known := IsRegistered(address);
      if known {
        return;
      }
      var hash := ComputeBlockHash(memory, address, size);
      allocations := allocations + [BlockInfo(address, size, hash)];
      registered := registered[address := Bytes(memory, address, size)];
      checksum := ComputePoolHash();
    }

    /** Removes the block at an address, if there is one; the checksum is that of the list that is left. */
    method UnregisterBlock(address: nat)
      requires Valid()
      modifies this`allocations, this`checksum
      ensures Valid() && checksum == Fold(allocations)
      ensures Removed(old(allocations), allocations, address)
      ensures forall b :: b in allocations <==> b in old(allocations) && b.address != address
    {
      hide Crc, Fold, CrcTable.Valid, Removed, Without;
      WithoutIsDistinct(allocations, address);
      WithoutRemoves(allocations, address);
      allocations := Remaining(address);
      checksum := ComputePoolHash();
    }

    function Remaining(address: nat): seq<BlockInfo>
      reads this
    {
      Without(allocations, address)
    }

    /** True when no registered byte has changed; false on any change confined to four bytes of some block. */
    method VerifyAllBlocks(memory: nat -> bv8) returns (ok: bool)
      requires Valid()
      modifies table`initialized, table.entries
      ensures Valid()
      ensures ok == (initialized && forall b | b in allocations :: Crc(Bytes(memory, b.address, b.size)) == b.checksum)
      ensures initialized && (forall b | b in allocations :: Bytes(memory, b.address, b.size) == registered[b.address])
              ==> ok
      ensures (exists b :: b in allocations && BurstChange(registered[b.address], Bytes(memory, b.address, b.size)))
              ==> !ok
    {
      hide Crc, Fold, CrcTable.Valid, BurstChange;
      if !initialized {
        return false;
      }
      for i := 0 to |allocations|
        invariant Valid()
        invariant forall k | 0 <= k < i ::
            allocations[k].checksum == BlockHash(memory, allocations[k].address, allocations[k].size)
      {
        var block := allocations[i];
        var currentHash := ComputeBlockHash(memory, block.address, block.size);
        if currentHash != block.checksum {
          assert block in allocations && Crc(Bytes(memory, block.address, block.size)) != block.checksum;
          return false;
        }
      }
      forall b | b in allocations && BurstChange(registered[b.address], Bytes(memory, b.address, b.size))
        ensures false
      {
        BurstDetected(registered[b.address], Bytes(memory, b.address, b.size));
      }
      ok := true;
    }

    /** The stored checksum is never stale while the pool is initialized. */
    method CheckPoolIntegrity() returns (ok: bool)
      requires Valid()
      ensures ok == initialized
    {
      if !initialized {
        return false;
      }
      var calculatedHash := ComputePoolHash();
      ok := calculatedHash == checksum;
    }

    method VerifyBlock(memory: nat -> bv8, address: nat) returns (ok: bool)
      requires Valid()
      modifies table`initialized, table.entries
      ensures Valid()
      ensures !HasAddress(allocations, address) ==> !ok
      ensures forall b | b in allocations && b.address == address ::
              ok == (Crc(Bytes(memory, address, b.size)) == b.checksum)
    {
      hide Crc, Fold, CrcTable.Valid;
      for i := 0 to |allocations|
        invariant Valid()
        invariant forall k | 0 <= k < i :: allocations[k].address != address
      {
        var block := allocations[i];
        if block.address == address {
          var currentHash := ComputeBlockHash(memory, block.address, block.size);
          return currentHash == block.checksum;
        }
      }
      ok := false;
    }

    /** The checksum, or 0 when the pool is not initialized or a block has changed. */
    method GetIntegrityFactor(memory: nat -> bv8) returns (factor: bv32)
      requires Valid()
      modifies table`initialized, table.entries
      ensures Valid() && (factor == 0 || factor == checksum) && (!initialized ==> factor == 0)
      ensures (exists b :: b in allocations && BurstChange(registered[b.address], Bytes(memory, b.address, b.size)))
              ==> factor == 0
      ensures initialized && (forall b | b in allocations :: Bytes(memory, b.address, b.size) == registered[b.address])
              ==>
        factor == Fold(allocations)
    {
      hide Crc, Fold, CrcTable.Valid, BurstChange;
      if !initialized {
        return 0;
      }
      var intact := VerifyAllBlocks(memory);
      if !intact {
        return 0;
      }
      factor := checksum;
    }
  }
}
