/**
  The NVM checksums of kmod/igb/e1000_82575.c: a region of 0x40 words is valid when its words
  add up to 0xBABA modulo 2^16, and the 82580 keeps four such regions, one per port.
 */
module NvmChecksum {

  type u16 = x: int | 0 <= x < 0x1_0000

  const NVM_SUM: u16 := 0xBABA
  const CHECKSUM_REG: nat := 0x3F
  const COMPATIBILITY_REG: nat := 3
  const COMPATIBILITY_BIT: u16 := 0x8000

  /** NVM_82580_LAN_FUNC_OFFSET */
  function Offset(j: nat): nat {
    if j == 0 then 0 else 0x40 + 0x40 * j
  }

  /** The 16-bit sum of `n` words from `from` on. */
  function Sum(w: seq<u16>, from: nat, n: nat): u16
    requires from + n <= |w|
  {
    if n == 0 then 0 else (Sum(w, from, n - 1) + w[from + n - 1]) % 0x1_0000
  }

  predicate RegionValid(w: seq<u16>, offset: nat) {
    offset + CHECKSUM_REG < |w| && Sum(w, offset, CHECKSUM_REG + 1) == NVM_SUM
  }

  /** (u16) NVM_SUM - checksum */
  function Complement(sum: u16): u16 {
    (NVM_SUM + 0x1_0000 - sum) % 0x1_0000
  }

  function RegionUpdated(w: seq<u16>, offset: nat): (r: seq<u16>)
    requires offset + CHECKSUM_REG < |w|
    ensures |r| == |w|
  {
    w[offset + CHECKSUM_REG := Complement(Sum(w, offset, CHECKSUM_REG))]
  }

  function BitSet(w: seq<u16>): (r: seq<u16>)
    requires COMPATIBILITY_REG < |w|
    ensures |r| == |w| && r[COMPATIBILITY_REG] >= COMPATIBILITY_BIT
  {
    if w[COMPATIBILITY_REG] >= COMPATIBILITY_BIT then w
    else w[COMPATIBILITY_REG := w[COMPATIBILITY_REG] + COMPATIBILITY_BIT]
  }

  /** The first n regions updated, in order. */
  function RegionsUpdated(w: seq<u16>, n: nat): (r: seq<u16>)
    requires n <= 4 && Offset(3) + CHECKSUM_REG < |w|
    ensures |r| == |w|
  {
    if n == 0 then w else RegionUpdated(RegionsUpdated(w, n - 1), Offset(n - 1))
  }

  function Updated82580(w: seq<u16>): (r: seq<u16>)
    requires Offset(3) + CHECKSUM_REG < |w|
    ensures |r| == |w|
  {
    RegionsUpdated(BitSet(w), 4)
  }

  // ---------------------------------------------------------------- Updates and regions

  lemma {:induction false} SumOutside(w: seq<u16>, from: nat, n: nat, k: nat, x: u16)
    requires from + n <= |w| && k < |w| && !(from <= k < from + n)
    ensures Sum(w[k := x], from, n) == Sum(w, from, n)
  {
    if n > 0 {
      SumOutside(w, from, n - 1, k, x);
    }
  }

  lemma UpdateMakesValid(w: seq<u16>, offset: nat)
    requires offset + CHECKSUM_REG < |w|
    ensures RegionValid(RegionUpdated(w, offset), offset)
  {
    var s := Sum(w, offset, CHECKSUM_REG);
    SumOutside(w, offset, CHECKSUM_REG, offset + CHECKSUM_REG, Complement(s));
    assert (s + Complement(s)) % 0x1_0000 == NVM_SUM;
  }

  /** Writing one region's checksum leaves every other region as valid or invalid as it was. */
  lemma UpdateKeepsOthers(w: seq<u16>, i: nat, j: nat)
    requires i < 4 && j < 4 && i != j && Offset(3) + CHECKSUM_REG < |w|
    ensures RegionValid(RegionUpdated(w, Offset(i)), Offset(j)) == RegionValid(w, Offset(j))
  {
    SumOutside(w, Offset(j), CHECKSUM_REG + 1, Offset(i) + CHECKSUM_REG, Complement(Sum(w, Offset(i), CHECKSUM_REG)));
  }

  lemma {:induction false} RegionsBecomeValid(w: seq<u16>, n: nat, j: nat)
    requires j < n <= 4 && Offset(3) + CHECKSUM_REG < |w|
    ensures RegionValid(RegionsUpdated(w, n), Offset(j))
  {
    hide RegionValid, RegionUpdated;
    var before := RegionsUpdated(w, n - 1);
    if j == n - 1 {
      UpdateMakesValid(before, Offset(j));
    } else {
      RegionsBecomeValid(w, n - 1, j);
      UpdateKeepsOthers(before, n - 1, j);
    }
  }

  predicate ChecksumWord(k: nat) {
    exists j :: 0 <= j < 4 && k == Offset(j) + CHECKSUM_REG
  }

  lemma {:induction false} RegionsFrame(w: seq<u16>, n: nat, k: nat)
    requires n <= 4 && Offset(3) + CHECKSUM_REG < |w| && k < |w| && !ChecksumWord(k)
    ensures RegionsUpdated(w, n)[k] == w[k]
  {
    if n > 0 {
      RegionsFrame(w, n - 1, k);
    }
  }

  /**
    After an update all four regions are valid and the compatibility bit tells so; only the
    compatibility word and the four checksum words can have changed.
   */
  lemma UpdateValidates(w: seq<u16>)
    requires Offset(3) + CHECKSUM_REG < |w|
    ensures var r := Updated82580(w);
            && (forall j :: 0 <= j < 4 ==> RegionValid(r, Offset(j)))
            && r[COMPATIBILITY_REG] >= COMPATIBILITY_BIT
            && (forall k :: 0 <= k < |w| && k != COMPATIBILITY_REG && !ChecksumWord(k) ==> r[k] == w[k])
  {
    hide RegionsUpdated, RegionValid;
    var b := BitSet(w);
    forall j | 0 <= j < 4 ensures RegionValid(Updated82580(w), Offset(j)) {
      RegionsBecomeValid(b, 4, j);
    }
    forall k | 0 <= k < |w| && !ChecksumWord(k) ensures Updated82580(w)[k] == b[k] {
      RegionsFrame(b, 4, k);
    }
    assert !ChecksumWord(COMPATIBILITY_REG);
  }

  // ---------------------------------------------------------------- The driver

  /** A word NVM behind nvm.ops: reads and writes of some words may fail. */
  class Nvm {
    const words: array<u16>
    const unreadable: set<nat>
    const unwritable: set<nat>

    constructor (words: array<u16>, unreadable: set<nat>, unwritable: set<nat>)
      ensures this.words == words && this.unreadable == unreadable && this.unwritable == unwritable
    {
      this.words, this.unreadable, this.unwritable := words, unreadable, unwritable;
    }

    ghost predicate Readable(from: nat, n: nat) {
      from + n <= words.Length && forall k :: from <= k < from + n ==> k !in unreadable
    }

    method Read(k: nat) returns (ok: bool, data: u16)
      ensures ok <==> Readable(k, 1)
      ensures ok ==> data == words[k]
    {
      ok := k < words.Length && k !in unreadable;
      data := if ok then words[k] else 0;
    }

    method Write(k: nat, data: u16) returns (ok: bool)
      modifies words
      ensures ok ==> k < words.Length && words[..] == old(words[..])[k := data]
      ensures !ok ==> words[..] == old(words[..])
    {
      ok := k < words.Length && k !in unwritable;
      if ok {
        words[k] := data;
      }
    }

    /** The loop both checksum functions share: adds words until one cannot be read. */
    method SumWords(from: nat, n: nat) returns (ok: bool, checksum: u16)
      ensures ok <==> Readable(from, n) || n == 0
      ensures ok && n > 0 ==> checksum == Sum(words[..], from, n)
    {
      ok, checksum := true, 0;
      var i := 0;
      while ok && i < n
        invariant 0 <= i <= n
        invariant ok ==> i == 0 || Readable(from, i)
        invariant ok ==> checksum == if i == 0 then 0 else Sum(words[..], from, i)
        invariant !ok ==> n > 0 && !Readable(from, n)
      {
        var data;
        ok, data := Read(from + i);
        if ok {
          assert Sum(words[..], from, i + 1) == (Sum(words[..], from, i) + words[from + i]) % 0x1_0000;
          checksum := (checksum + data) % 0x1_0000;
          i := i + 1;
        } else {
          assert from + n > words.Length || from + i in unreadable;
        }
      }
    }

    /** e1000_validate_nvm_checksum_with_offset */
    method ValidateRegion(offset: nat) returns (ok: bool)
      ensures ok <==> Readable(offset, CHECKSUM_REG + 1) && RegionValid(words[..], offset)
    {
      var checksum;
      ok, checksum := SumWords(offset, CHECKSUM_REG + 1);
      if ok {
        ok := checksum == NVM_SUM;
      }
    }

    /** e1000_update_nvm_checksum_with_offset */
    method UpdateRegion(offset: nat) returns (ok: bool)
      modifies words
      ensures ok ==> offset + CHECKSUM_REG < words.Length && words[..] == RegionUpdated(old(words[..]), offset)
      ensures !ok ==> words[..] == old(words[..])
    {
      hide Sum;
      var checksum;
      ok, checksum := SumWords(offset, CHECKSUM_REG);
      if ok {
        ok := Write(CHECKSUM_REG + offset, Complement(checksum));
      }
    }

    /** e1000_validate_nvm_checksum_82580: one region, or four when the compatibility bit is set. */
    method Validate82580() returns (ok: bool)
      ensures ok <==> Readable(COMPATIBILITY_REG, 1)
                      && forall j :: 0 <= j < (if words[COMPATIBILITY_REG] >= COMPATIBILITY_BIT then 4 else 1) ==>
                           Readable(Offset(j), CHECKSUM_REG + 1) && RegionValid(words[..], Offset(j))
    {
      hide RegionValid, Offset;
      var data;
      ok, data := Read(COMPATIBILITY_REG);
      if ok {
        var regions := if data >= COMPATIBILITY_BIT then 4 else 1;
        var j := 0;
        while ok && j < regions
          invariant 0 <= j <= regions
          invariant ok ==> forall i :: 0 <= i < j ==> Readable(Offset(i), CHECKSUM_REG + 1) && RegionValid(words[..], Offset(i))
          invariant !ok ==> j < regions && !(Readable(Offset(j), CHECKSUM_REG + 1) && RegionValid(words[..], Offset(j)))
        {
          ok := ValidateRegion(Offset(j));
          if ok {
            j := j + 1;
          }
        }
      }
    }

    /** e1000_update_nvm_checksum_82580: sets the compatibility bit, then updates all four regions. */
    method Update82580() returns (ok: bool)
      modifies words
      ensures ok ==> Offset(3) + CHECKSUM_REG < words.Length && words[..] == Updated82580(old(words[..]))
      ensures ok ==> forall j :: 0 <= j < 4 ==> RegionValid(words[..], Offset(j))
      ensures forall k :: 0 <= k < words.Length && k != COMPATIBILITY_REG && !ChecksumWord(k) ==> words[k] == old(words[k])
    {
      hide RegionValid, Sum;
      ghost var w := words[..];
      var data;
      ok, data := Read(COMPATIBILITY_REG);
      if ok && data < COMPATIBILITY_BIT {
        ok := Write(COMPATIBILITY_REG, data + COMPATIBILITY_BIT);
      }
      if !ok {
        return;
      }
      ghost var b := words[..];
      assert b == BitSet(w);
      var j := 0;
      ghost var room := Offset(3) + CHECKSUM_REG < words.Length;
      while ok && j < 4
        invariant 0 <= j <= 4
        invariant ok && room ==> words[..] == RegionsUpdated(b, j)
        invariant ok && j == 4 ==> room
        invariant forall k :: 0 <= k < words.Length && k != COMPATIBILITY_REG && !ChecksumWord(k) ==> words[k] == w[k]
      {
        ok := UpdateRegion(Offset(j));
        j := j + 1;
      }
      if ok {
        UpdateValidates(w);
      }
    }

    /** Validation right after a successful update of a readable NVM succeeds. */
    method UpdateAndValidate() returns (updated: bool, valid: bool)
      modifies words
      ensures updated ==> Offset(3) + CHECKSUM_REG < words.Length && words[..] == Updated82580(old(words[..]))
      ensures updated && Readable(COMPATIBILITY_REG, 1) && (forall j :: 0 <= j < 4 ==> Readable(Offset(j), CHECKSUM_REG + 1)) ==>
                valid
    {
      hide RegionValid, Sum;
      updated := Update82580();
      valid := Validate82580();
    }
  }
}
