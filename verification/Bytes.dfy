/** Bytes on the wire and on disk. */
module Bytes {
  newtype byte = x: int | 0 <= x < 256

  const I64_MAX: int := 0x7FFF_FFFF_FFFF_FFFF
  const I64_MIN: int := -0x8000_0000_0000_0000
  const U64_MAX: int := 0xFFFF_FFFF_FFFF_FFFF

  /** A reader's result: a value and what is left, or a refusal. */
  datatype Parse<+T> = Done(value: T, rest: seq<byte>) | Fail

  /** A parse that carried on after `front` had been read. */
  function Followed<A>(front: seq<A>, r: Parse<seq<A>>): Parse<seq<A>> {
    if r.Fail? then Fail else Done(front + r.value, r.rest)
  }

  lemma FollowsNothing<A>(r: Parse<seq<A>>)
    ensures Followed([], r) == r
  {
    if r.Done? { assert [] + r.value == r.value; }
  }

  lemma FollowsOne<A>(front: seq<A>, x: A, r: Parse<seq<A>>)
    ensures Followed(front, Followed([x], r)) == Followed(front + [x], r)
  {
    if r.Done? { assert front + ([x] + r.value) == front + [x] + r.value; }
  }
}
