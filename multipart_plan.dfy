/** The parts multipartUploadV1 cuts a file into. The loop starts at offset 0
    with part number 1 and a part size of 5 MiB; each round sets the part
    size to the smaller of the carried size and the bytes left, uploads that
    range, and advances. `PlanFrom` is that loop read as a recursion over its
    three variables; the lemmas give the shape of the plan it produces. */
module MultipartPlan {

  const PartSize: nat := 5 * 1024 * 1024

  datatype Part = Part(number: nat, offset: nat, size: nat)

  /** Math.min. */
  function Min(a: int, b: int): (m: int)
    ensures m <= a && m <= b && (m == a || m == b)
  {
    if a < b then a else b
  }

  /** The parts still to upload when the loop is at `position` with part
      number `number` and carried part size `carried`, for a file of
      `length` bytes. */
  function PlanFrom(position: nat, number: nat, carried: nat, length: nat): seq<Part>
    requires carried > 0
    decreases length - position
  {
    if position >= length then []
    else
      var size := Min(carried, length - position);
      [Part(number, position, size)] + PlanFrom(position + size, number + 1, size, length)
  }

  /** All parts of a file of `length` bytes. */
  function Plan(length: nat): seq<Part> {
    PlanFrom(0, 1, PartSize, length)
  }

  /** The bytes covered by `parts`. */
  function SumSizes(parts: seq<Part>): nat {
    if parts == [] then 0 else SumSizes(parts[..|parts| - 1]) + parts[|parts| - 1].size
  }

  /** Parts from `position` are numbered consecutively from `number`, start at
      `position`, follow each other without gap or overlap, end exactly at
      `length`, and all but the last have the carried size. */
  lemma {:induction false} PlanFromShape(position: nat, number: nat, carried: nat, length: nat)
    requires carried > 0
    ensures var parts := PlanFrom(position, number, carried, length);
      && (parts != [] <==> position < length)
      && (parts != [] ==> parts[0].offset == position && parts[|parts| - 1].offset + parts[|parts| - 1].size == length)
      && (forall k :: 0 <= k < |parts| ==>
            && parts[k].number == number + k
            && 0 < parts[k].size <= carried
            && parts[k].offset + parts[k].size <= length)
      && (forall k :: 0 <= k < |parts| - 1 ==>
            parts[k].size == carried && parts[k + 1].offset == parts[k].offset + parts[k].size)
    decreases length - position
  {
    if position < length {
      var size := Min(carried, length - position);
      var rest := PlanFrom(position + size, number + 1, size, length);
      var parts := PlanFrom(position, number, carried, length);
      assert parts == [Part(number, position, size)] + rest;
      PlanFromShape(position + size, number + 1, size, length);
      if rest != [] {
        assert size == carried;
      }
      forall k | 0 <= k < |parts|
        ensures parts[k].number == number + k
        ensures 0 < parts[k].size <= carried
        ensures parts[k].offset + parts[k].size <= length
      {
        if k > 0 {
          assert parts[k] == rest[k - 1];
        }
      }
      forall k | 0 <= k < |parts| - 1
        ensures parts[k].size == carried && parts[k + 1].offset == parts[k].offset + parts[k].size
      {
        if k > 0 {
          assert parts[k] == rest[k - 1] && parts[k + 1] == rest[k];
        }
      }
    }
  }

  /** Part k (counting from 0) is part number k + 1, starts at k * PartSize and
      is PartSize bytes long unless it is the last; there are ceil(length /
      PartSize) parts, none for an empty file. */
  lemma PlanParts(length: nat)
    ensures var parts := Plan(length);
      && |parts| == (length + PartSize - 1) / PartSize
      && (|parts| == 0 <==> length == 0)
      && forall k :: 0 <= k < |parts| ==>
           parts[k] == Part(k + 1, k * PartSize, Min(PartSize, length - k * PartSize))
  {
    var parts := Plan(length);
    var n := |parts|;
    PlanFromShape(0, 1, PartSize, length);
    OffsetsAreMultiples(parts, length);
    if n > 0 {
      var last := parts[n - 1];
      assert last.offset == (n - 1) * PartSize;
      assert (n - 1) * PartSize < length <= n * PartSize;
    }
    forall k | 0 <= k < n
      ensures parts[k] == Part(k + 1, k * PartSize, Min(PartSize, length - k * PartSize))
    {
      if k < n - 1 {
        assert parts[k + 1].offset + parts[k + 1].size <= length;
      }
    }
  }

  lemma OffsetsAreMultiples(parts: seq<Part>, length: nat)
    requires parts == Plan(length)
    ensures forall k :: 0 <= k < |parts| ==> parts[k].offset == k * PartSize
  {
    PlanFromShape(0, 1, PartSize, length);
    var k := 0;
    while k < |parts|
      invariant k <= |parts|
      invariant forall i :: 0 <= i < k ==> parts[i].offset == i * PartSize
    {
      if k > 0 {
        assert parts[k].offset == parts[k - 1].offset + parts[k - 1].size;
      }
      k := k + 1;
    }
  }

  /** Each part's offset is the number of bytes in the parts before it, and
      the parts cover the whole file. */
  lemma {:induction false} PlanOffsetsArePrefixSums(length: nat)
    ensures var parts := Plan(length);
      && (forall k :: 0 <= k < |parts| ==> parts[k].offset == SumSizes(parts[..k]))
      && SumSizes(parts) == length
  {
    var parts := Plan(length);
    PlanFromShape(0, 1, PartSize, length);
    var k := 0;
    while k < |parts|
      invariant k <= |parts|
      invariant forall i :: 0 <= i < k ==> parts[i].offset == SumSizes(parts[..i])
    {
      if k > 0 {
        assert parts[..k][..k - 1] == parts[..k - 1];
        assert parts[k].offset == parts[k - 1].offset + parts[k - 1].size;
      } else {
        assert parts[..0] == [];
      }
      k := k + 1;
    }
    if parts != [] {
      var n := |parts|;
      assert parts[..n] == parts;
      assert parts[..n][..n - 1] == parts[..n - 1];
    }
  }
}
