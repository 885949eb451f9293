/**
 The vocabulary shared by every module: answers, requests, the fixed-width integers of the
 C++ sources, C strings, and a filter on sequences.
 */
module TrustTypes {

  datatype Option<+T> = None | Some(value: T)

  /** The two answers a user can give; the enumerators are 0 and 1 in the source. */
  datatype Answer = Denied | Granted

  type int32 = x: int | -0x8000_0000 <= x < 0x8000_0000
  type uint32 = x: int | 0 <= x < 0x1_0000_0000
  type int64 = x: int | -0x8000_0000_0000_0000 <= x < 0x8000_0000_0000_0000
  type uint64 = x: int | 0 <= x < 0x1_0000_0000_0000_0000

  /** A request as the store's interface sees it. `when` counts clock ticks since the epoch. */
  datatype Request = Request(from: string, feature: uint64, when: int64, answer: Answer)

  /** What an agent is told about the application that asks. */
  datatype RequestParameters = RequestParameters(
    uid: uint32, pid: int32, id: string, feature: uint64, description: string)

  /** Conversion to a 32-bit signed integer, which keeps the low 32 bits. */
  function Narrow32(x: int): (r: int32)
    ensures (x - r) % 0x1_0000_0000 == 0
  {
    var low := x % 0x1_0000_0000;
    if low < 0x8000_0000 then low else low - 0x1_0000_0000
  }

  /** Conversion to a 32-bit unsigned integer. */
  function Unsigned32(x: int): (r: uint32)
    ensures (x - r) % 0x1_0000_0000 == 0
  {
    x % 0x1_0000_0000
  }

  /** Conversion to a 64-bit signed integer. */
  function Narrow64(x: int): (r: int64)
    ensures (x - r) % 0x1_0000_0000_0000_0000 == 0
  {
    var low := x % 0x1_0000_0000_0000_0000;
    if low < 0x8000_0000_0000_0000 then low else low - 0x1_0000_0000_0000_0000
  }

  /** Conversion to a 64-bit unsigned integer. */
  function Unsigned64(x: int): (r: uint64)
    ensures (x - r) % 0x1_0000_0000_0000_0000 == 0
  {
    x % 0x1_0000_0000_0000_0000
  }

  /** The 64-bit patterns whose upper half only repeats bit 31. */
  predicate SignExtended(feature: uint64) {
    feature < 0x8000_0000 || feature >= 0xFFFF_FFFF_8000_0000
  }

  predicate NulFree(s: string) {
    '\0' !in s
  }

  /** What remains of a string once it has passed through a NUL-terminated buffer. */
  function CString(s: string): (r: string)
    ensures r <= s && NulFree(r)
    ensures r == s <==> NulFree(s)
    ensures r != s ==> s[|r|] == '\0'
  {
    if s == "" || s[0] == '\0' then "" else [s[0]] + CString(s[1..])
  }

  /** The elements of `s` that satisfy `p`, in their original order. */
  function Keep<T(!new)>(s: seq<T>, p: T -> bool): (r: seq<T>)
    ensures forall x :: x in r <==> x in s && p(x)
    ensures |r| <= |s|
  {
    if s == [] then [] else (if p(s[0]) then [s[0]] else []) + Keep(s[1..], p)
  }

  lemma {:induction false} KeepAppend<T(!new)>(s: seq<T>, t: seq<T>, p: T -> bool)
    ensures Keep(s + t, p) == Keep(s, p) + Keep(t, p)
  {
    if s == [] {
      assert s + t == t;
    } else {
      assert (s + t)[1..] == s[1..] + t;
      KeepAppend(s[1..], t, p);
    }
  }

  /** Only the verdicts on the elements present matter. */
  lemma {:induction false} KeepSame<T(!new)>(s: seq<T>, p: T -> bool, q: T -> bool)
    requires forall x :: x in s ==> p(x) == q(x)
    ensures Keep(s, p) == Keep(s, q)
  {
    if s != [] {
      KeepSame(s[1..], p, q);
    }
  }

  lemma {:induction false} KeepTwice<T(!new)>(s: seq<T>, p: T -> bool, q: T -> bool, both: T -> bool)
    requires forall x :: x in s ==> both(x) == (p(x) && q(x))
    ensures Keep(Keep(s, p), q) == Keep(s, both)
  {
    if s != [] {
      KeepTwice(s[1..], p, q, both);
      KeepAppend(if p(s[0]) then [s[0]] else [], Keep(s[1..], p), q);
    }
  }

  lemma {:induction false} KeepAll<T(!new)>(s: seq<T>, p: T -> bool)
    requires forall x :: x in s ==> p(x)
    ensures Keep(s, p) == s
  {
    if s != [] { KeepAll(s[1..], p); }
  }

  lemma {:induction false} KeepNone<T(!new)>(s: seq<T>, p: T -> bool)
    requires forall x :: x in s ==> !p(x)
    ensures Keep(s, p) == []
  {
    if s != [] { KeepNone(s[1..], p); }
  }
}
