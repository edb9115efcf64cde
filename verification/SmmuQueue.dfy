/**
  * The SMMUv3 command queue (src/arch/aarch64/arm_smmuv3/arm_smmuv3.c, and section 3.5.1 of the Arm
  * SMMUv3 specification, IHI 0070): a ring whose producer and consumer registers hold an index and,
  * one bit above it, a bit that flips every time round. The registers stand for unbounded counts of
  * commands issued and consumed.
  */
module SmmuQueue {
  import opened Arithmetic

  const SYNC_ATTEMPTS := 100000

  datatype Cmd = Cmd(dw0: int, dw1: int)

  function Index(n: nat, size: nat): int
    requires size > 0
  {
    n % size
  }

  function WrapBit(n: nat, size: nat): int
    requires size > 0
  {
    n / size % 2
  }

  /** The register value of a count. */
  function Register(n: nat, size: nat): int
    requires size > 0
  {
    Index(n, size) + size * WrapBit(n, size)
  }

  lemma Laps(n: nat, size: nat)
    requires size > 0
    ensures n == n / size * size + n % size && 0 <= n % size < size && n / size >= 0
  {
  }

  lemma LapBound(a: int, b: int, x: int, y: int, size: nat)
    requires size > 0 && 0 <= x < size && 0 <= y < size && b * size + y <= a * size + x <= b * size + y + size
    ensures (a == b && y <= x) || (a == b + 1 && x <= y)
  {
    if a < b {
      MulStep(a, b, size);
      assert false;
    } else if a > b + 1 {
      MulStep(b, b + 1, size);
      MulStep(b + 1, a, size);
      assert false;
    } else if a == b + 1 {
      MulStep(b, a, size);
    }
  }

  /** The producer is never more than a lap ahead, so the bits tell which of the two cases it is. */
  lemma SameLapOrNext(p: nat, c: nat, size: nat)
    requires size > 0 && c <= p <= c + size
    ensures WrapBit(p, size) == WrapBit(c, size) <==> p / size == c / size
    ensures WrapBit(p, size) == WrapBit(c, size) ==> p - c == Index(p, size) - Index(c, size)
    ensures WrapBit(p, size) != WrapBit(c, size) ==> p - c == size + Index(p, size) - Index(c, size)
  {
    Laps(p, size);
    Laps(c, size);
    LapBound(p / size, c / size, p % size, c % size, size);
    if p / size != c / size {
      MulStep(c / size, p / size, size);
    }
  }

  /** The number of free slots as the driver computes it. */
  function EmptySlots(prodIdx: int, prodWrap: int, consIdx: int, consWrap: int, size: int): int {
    if prodWrap == consWrap then size - (prodIdx - consIdx) else consIdx - prodIdx
  }

  lemma EmptySlotsIsRoom(p: nat, c: nat, size: nat)
    requires size > 0 && c <= p <= c + size
    ensures EmptySlots(Index(p, size), WrapBit(p, size), Index(c, size), WrapBit(c, size), size) == size - (p - c)
  {
    SameLapOrNext(p, c, size);
  }

  lemma CaughtUpIff(p: nat, c: nat, size: nat)
    requires size > 0 && c <= p <= c + size
    ensures WrapBit(p, size) == WrapBit(c, size) && Index(p, size) == Index(c, size) <==> p == c
  {
    SameLapOrNext(p, c, size);
  }

  /** find_offset_next_wr_idx: the wrap bit is passed in its place. */
  function NextWriteIndex(idx: int, wrapInPlace: int, size: int): int {
    if idx < size - 1 then idx + 1 + wrapInPlace
    else if wrapInPlace == 0 then size
    else 0
  }

  lemma NextIsNext(n: nat, size: nat)
    requires size > 0
    ensures NextWriteIndex(Index(n, size), size * WrapBit(n, size), size) == Register(n + 1, size)
  {
    Laps(n, size);
    var a, i := n / size, n % size;
    if i < size - 1 {
      DivModUnique(n + 1, size, a, i + 1);
    } else {
      MulStep(a, a + 1, size);
      DivModUnique(n + 1, size, a + 1, 0);
      assert WrapBit(n, size) == 0 || WrapBit(n, size) == 1;
    }
  }

  /** Reading a register back; the bits above the wrap bit do not matter. */
  lemma Reads(n: nat, above: nat, size: nat)
    requires size > 0
    ensures var reg := Register(n, size) + size * (2 * above);
            reg % size == Index(n, size) && reg / size % 2 == WrapBit(n, size) && reg >= 0
  {
    var reg := Register(n, size) + size * (2 * above);
    var w := WrapBit(n, size);
    assert reg == (w + 2 * above) * size + Index(n, size);
    DivModUnique(reg, size, w + 2 * above, Index(n, size));
  }

  /** Within a lap, two counts have different slots. */
  lemma OtherSlot(k: nat, p: nat, size: nat)
    requires size > 0 && k < p < k + size
    ensures Index(k, size) != Index(p, size)
  {
    if Index(k, size) == Index(p, size) {
      SameLapOrNext(p, k, size);
      assert false;
    }
  }

  class CommandQueue {
    const size: nat
    const slots: array<Cmd>
    var prodReg: int
    var consReg: int
    ghost var issued: seq<Cmd>     // every command ever issued
    ghost var taken: seq<Cmd>      // what the SMMU has read out of the queue
    ghost var error: nat           // what the consumer register holds above the wrap bit

    ghost predicate Valid()
      reads this, slots
    {
      && size > 0 && slots.Length == size && |taken| <= |issued| <= |taken| + size
      && prodReg == Register(|issued|, size) && consReg == Register(|taken|, size) + size * (2 * error)
      && taken == issued[..|taken|]
      && forall k :: |taken| <= k < |issued| ==> slots[Index(k, size)] == issued[k]
    }

    constructor (size: nat)
      requires size > 0
      ensures Valid() && fresh(slots) && this.size == size && issued == [] && taken == []
    {
      this.size := size;
      slots := new Cmd[size](_ => Cmd(0, 0));
      prodReg := 0;
      consReg := 0;
      issued := [];
      taken := [];
      error := 0;
    }

    /** The SMMU takes up to `n` commands, as it may at any moment, and reports any error above the wrap bit. */
    method Hardware(n: nat, e: nat)
      requires Valid()
      modifies this`consReg, this`taken, this`error
      ensures Valid() && |taken| == Min(old(|taken|) + n, |issued|) && taken == issued[..|taken|]
    {
      for i := 0 to n
        invariant Valid() && |taken| == Min(old(|taken|) + i, |issued|)
      {
        ghost var t := |taken|;
        Reads(t, error, size);
        Reads(|issued|, 0, size);
        CaughtUpIff(|issued|, t, size);
        var idx, wrap := consReg % size, consReg / size % 2;
        if idx != prodReg % size || wrap != prodReg / size % 2 {
          NextIsNext(t, size);
          taken := taken + [slots[idx]];
          assert issued[..t + 1] == issued[..t] + [issued[t]];
          consReg := NextWriteIndex(idx, size * wrap, size) + size * (2 * e);
          error := e;
        }
      }
    }

    /** smmuv3_issue_cmd. The SMMU may be at work between any two accesses of the driver. */
    method Issue(cmd: Cmd, n0: nat, n1: nat, e: nat) returns (ok: bool)
      requires Valid()
      modifies this, slots
      ensures Valid() && |taken| >= old(|taken|)
      ensures issued == if ok then old(issued) + [cmd] else old(issued)
      ensures !ok ==> |issued| == |taken| + size
    {
      Reads(|issued|, 0, size);
      var prodIdx, prodWrap := prodReg % size, prodReg / size % 2;
      Hardware(n0, e);
      var room := Room(prodIdx, prodWrap);
      if room == 0 {
        return false;
      }
      Hardware(n1, e);
      Push(prodIdx, cmd);
      NextIsNext(|issued|, size);
      prodReg := NextWriteIndex(prodIdx, size * prodWrap, size);
      issued := issued + [cmd];
      return true;
    }

    method Room(prodIdx: int, prodWrap: int) returns (room: int)
      requires Valid() && prodIdx == Index(|issued|, size) && prodWrap == WrapBit(|issued|, size)
      ensures room == size - (|issued| - |taken|)
    {
      Reads(|taken|, error, size);
      EmptySlotsIsRoom(|issued|, |taken|, size);
      return EmptySlots(prodIdx, prodWrap, consReg % size, consReg / size % 2, size);
    }

    /** push_entry_to_cmdq: no command that is still to be consumed is overwritten. */
    method Push(idx: int, cmd: Cmd)
      requires Valid() && idx == Index(|issued|, size) && |issued| < |taken| + size
      modifies slots
      ensures Valid() && slots[idx] == cmd
    {
      forall k | |taken| <= k < |issued|
        ensures Index(k, size) != idx
      {
        OtherSlot(k, |issued|, size);
      }
      slots[idx] := cmd;
    }

    /** smmuv3_rd_meets_wr_idx: `polled` is how many commands had been taken at every check. */
    method ReadMeetsWrite(progress: nat -> nat, e: nat) returns (ok: bool, ghost polled: seq<int>)
      requires Valid()
      modifies this`consReg, this`taken, this`error
      ensures Valid() && |taken| >= old(|taken|) && issued == old(issued)
      ensures ok ==> taken == issued
      ensures !ok ==> |polled| == SYNC_ATTEMPTS && forall i :: 0 <= i < |polled| ==> polled[i] < |issued|
    {
      Reads(|issued|, 0, size);
      var prodIdx, prodWrap := prodReg % size, prodReg / size % 2;
      polled := [];
      for attempts := 0 to SYNC_ATTEMPTS
        invariant Valid() && |taken| >= old(|taken|) && issued == old(issued)
        invariant |polled| == attempts && forall i :: 0 <= i < |polled| ==> polled[i] < |issued|
      {
        Reads(|taken|, error, size);
        CaughtUpIff(|issued|, |taken|, size);
        var consIdx, consWrap := consReg % size, consReg / size % 2;
        if consWrap == prodWrap && prodIdx == consIdx {
          assert issued[..|taken|] == issued;
          return true, polled;
        }
        polled := polled + [|taken|];
        Hardware(progress(attempts), e);
      }
      return false, polled;
    }

    /** smmuv3_synchronize_cmdq: when it succeeds, the SMMU has taken every command, in the order issued. */
    method Synchronize(sync: Cmd, progress: nat -> nat, n0: nat, n1: nat, e: nat) returns (ok: bool)
      requires Valid()
      modifies this, slots
      ensures Valid() && (ok ==> taken == issued == old(issued) + [sync])
    {
      ok := Issue(sync, n0, n1, e);
      if ok {
        var met, _ := ReadMeetsWrite(progress, e);
        ok := met;
      }
    }
  }
}
