/**
 * The base DAO: every data operation a subclass does not override throws
 * `DaoUnsupportedOperationException`, and the page offset is computed from
 * the request's page and size in Java `int` arithmetic.
 */
module AbstractDao {
  import opened Wrappers
  import opened Entities

  /** Java `int` arithmetic: the exact result brought back into 32 bits, two's complement. */
  function Wrap(x: int): (r: Int32)
    ensures (r - x) % 0x1_0000_0000 == 0
  {
    var m := x % 0x1_0000_0000;
    if m > INT_MAX then m - 0x1_0000_0000 else m
  }

  /** `a * b` on Java `int`s. */
  function IntMul(a: Int32, b: Int32): Int32 {
    Wrap(a * b)
  }

  /** `getOffset`: `rph.getPage() * rph.getSize()`; either one null throws when it is unboxed. */
  function GetOffset(page: Option<Int32>, size: Option<Int32>): (r: Outcome<Int32>)
    ensures r.Failure? <==> page.None? || size.None?
    ensures r.Failure? ==> r.error == NullPointer
    ensures r.Success? ==> (r.value - page.value * size.value) % 0x1_0000_0000 == 0
  {
    if page.None? || size.None? then Failure(NullPointer) else Success(IntMul(page.value, size.value))
  }

  /** A value already in range is its own wrap. */
  lemma WrapInRange(x: int)
    requires INT_MIN <= x <= INT_MAX
    ensures Wrap(x) == x
  {
  }

  /** When the product fits in an `int`, the offset is exactly `page * size`, and never negative for a non-negative page and size. */
  lemma OffsetExact(page: Int32, size: Int32)
    requires INT_MIN <= page * size <= INT_MAX
    ensures GetOffset(Some(page), Some(size)) == Success(page * size)
    ensures 0 <= page && 0 <= size ==> GetOffset(Some(page), Some(size)).value >= 0
  {
    WrapInRange(page * size);
  }

  /** A product past `Integer.MAX_VALUE` wraps around to a negative offset: the case `OffsetExact` excludes. */
  lemma OffsetOverflows()
    ensures GetOffset(Some(65536), Some(32768)) == Success(INT_MIN)
  {
  }

  /** The defaults: each data operation throws instead of doing nothing. */
  function Create<T>(entity: T): (r: Outcome<T>)
    ensures r == Failure(UnsupportedOperation)
  {
    Failure(UnsupportedOperation)
  }

  function FindById<T>(id: int): (r: Outcome<T>)
    ensures r == Failure(UnsupportedOperation)
  {
    Failure(UnsupportedOperation)
  }

  function FindAll<P, T>(parameters: P): (r: Outcome<seq<T>>)
    ensures r == Failure(UnsupportedOperation)
  {
    Failure(UnsupportedOperation)
  }

  function Update<T>(entity: T): (r: Outcome<T>)
    ensures r == Failure(UnsupportedOperation)
  {
    Failure(UnsupportedOperation)
  }

  function Delete(id: int): (r: Outcome<()>)
    ensures r == Failure(UnsupportedOperation)
  {
    Failure(UnsupportedOperation)
  }

  /** None of the defaults succeeds: not one of them is a silent no-op. */
  lemma DefaultsAlwaysThrow<T, P>(entity: T, id: int, parameters: P)
    ensures Create(entity).Failure? && FindById<T>(id).Failure? && FindAll<P, T>(parameters).Failure?
    ensures Update(entity).Failure? && Delete(id).Failure?
  {
  }
}
