/**
 * The element list of a wing section (CCPACSWingSectionElements): a count and
 * 1-based, bounds-checked access. The list is only read.
 */
module SectionElements {
  import opened GeometryKernel

  const TwoTo31: int := 0x8000_0000
  const TwoTo32: int := 0x1_0000_0000

  /** The C++ `int`. */
  newtype int32 = x: int | -TwoTo31 <= x < TwoTo31

  /**
   * static_cast<int> of a container size: the size modulo 2^32, read as a
   * two's-complement 32-bit value.
   */
  function Int32Of(n: nat): (r: int32)
    ensures n < TwoTo31 ==> r as int == n
    ensures r as int <= n
    ensures (r as int - n) % TwoTo32 == 0
  {
    var low := n % TwoTo32;
    if low < TwoTo31 then low as int32 else (low - TwoTo32) as int32
  }

  const BadIndex := Error(TiglIndexError, "Invalid index in CCPACSWingSectionElements::GetSectionElement")

  /** GetSectionElementCount: the size of the list, as an `int`. */
  function GetSectionElementCount<E>(elements: seq<E>): (count: int32)
    ensures |elements| < TwoTo31 ==> count as int == |elements|
  {
    Int32Of(|elements|)
  }

  /**
   * GetSectionElement: the element at position index - 1, or the index error
   * when index - 1 falls outside 0 .. count - 1.
   */
  function GetSectionElement<E>(elements: seq<E>, index: int32): (r: Result<E>)
    ensures r.Ok? ==> 1 <= index as int <= |elements| && r.value == elements[index as int - 1]
    ensures r.Err? ==> r.error == BadIndex
    ensures |elements| < TwoTo31 ==> (r.Ok? <==> 1 <= index as int <= |elements|)
  {
    var i := index as int - 1;
    var count := GetSectionElementCount(elements) as int;
    if i < 0 || i >= count then Err(BadIndex)
    else
      Ok(elements[i])
  }

  /**
   * Reading every index 1 .. count gives back the list, element by element,
   * and leaves it as it was.
   */
  lemma ReadBack<E>(elements: seq<E>)
    requires |elements| < TwoTo31
    ensures forall index: int32 :: 1 <= index as int <= |elements| ==>
      GetSectionElement(elements, index) == Ok(elements[index as int - 1])
    ensures forall index: int32 :: GetSectionElement(elements, index).Err? <==> index <= 0 || index as int > |elements|
  {
  }

  /**
   * With 2^31 up to 2^32 - 1 elements the count reads as negative and no
   * index passes the check.
   */
  lemma OversizedUnreadable<E>(elements: seq<E>, index: int32)
    requires TwoTo31 <= |elements| < TwoTo32
    ensures GetSectionElementCount(elements) < 0
    ensures GetSectionElement(elements, index).Err?
  {
  }
}
