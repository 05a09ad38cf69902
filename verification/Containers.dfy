/**
 The hand-written containers of cl.hpp: `cl::vector`, a vector of fixed capacity, and
 `cl::string`. The build is the one without exceptions, so a capacity error changes nothing.
 */

/** What a run of vector operations means, on sequences capped at `cap`. */
module BoundedSeq {
  datatype Op<T> =
    | PushBack(x: T)
    | PopBack
    | Clear
    | Assign(xs: seq<T>)          // assign(begin, end), and operator= from another vector
    | Resize(n: nat, fill: T)

  function Prefix<T>(s: seq<T>, n: nat): seq<T> {
    if |s| <= n then s else s[..n]
  }

  function Repeat<T>(x: T, n: nat): (r: seq<T>)
    ensures |r| == n && forall i :: 0 <= i < n ==> r[i] == x
  {
    seq(n, _ => x)
  }

  function Apply<T>(s: seq<T>, op: Op<T>, cap: nat): seq<T> {
    match op
    case PushBack(x) => if |s| < cap then s + [x] else s
    case PopBack => if s == [] then s else s[..|s| - 1]
    case Clear => []
    case Assign(xs) => Prefix(xs, cap)
    case Resize(n, fill) =>
      if n > cap then s else if n <= |s| then s[..n] else s + Repeat(fill, n - |s|)
  }

  function Run<T>(s: seq<T>, ops: seq<Op<T>>, cap: nat): seq<T>
    decreases ops
  {
    if ops == [] then s else Run(Apply(s, ops[0], cap), ops[1..], cap)
  }

  /** What each operation leaves, size and elements: a push or a resize that would exceed the capacity
      changes nothing, and a pop takes back what a push put there. */
  lemma ApplyMeans<T>(s: seq<T>, cap: nat, x: T, n: nat)
    requires |s| <= cap
    ensures var pushed := Apply(s, PushBack(x), cap);
            && |pushed| == (if |s| < cap then |s| + 1 else |s|) && s <= pushed
            && (|s| < cap ==> pushed[|s|] == x && Apply(pushed, PopBack, cap) == s)
    ensures |Apply(s, Clear, cap)| == 0 && Apply(s, Clear, cap) == Apply([], PopBack, cap)
    ensures var r := Apply(s, Resize(n, x), cap);
            && |r| == (if n <= cap then n else |s|)
            && forall i :: 0 <= i < |r| ==> r[i] == if i < |s| then s[i] else x
  {
    assert (s + [x])[..|s|] == s;
  }

  /** Assigning is clearing and pushing one by one, which is how the source does it. */
  function Pushes<T>(xs: seq<T>): (r: seq<Op<T>>)
    ensures |r| == |xs| && forall i :: 0 <= i < |xs| ==> r[i] == PushBack(xs[i])
  {
    seq(|xs|, i requires 0 <= i < |xs| => PushBack(xs[i]))
  }

  lemma {:induction false} PushesAppend<T>(s: seq<T>, xs: seq<T>, cap: nat)
    requires |s| <= cap
    ensures Run(s, Pushes(xs), cap) == Prefix(s + xs, cap)
    decreases xs
  {
    if xs == [] {
      assert s + xs == s;
    } else {
      assert Pushes(xs)[1..] == Pushes(xs[1..]);
      PushesAppend(Apply(s, PushBack(xs[0]), cap), xs[1..], cap);
      if |s| < cap {
        assert (s + [xs[0]]) + xs[1..] == s + xs;
      } else {
        assert (s + xs)[..cap] == s && (s + xs[1..])[..cap] == s;
      }
    }
  }

  /** In a run of pushes from the empty vector exactly the first `cap` elements stay, in order. */
  lemma PushesKeepFirst<T>(xs: seq<T>, cap: nat)
    ensures Run([], Pushes(xs), cap) == Run([], [Assign(xs)], cap) == Prefix(xs, cap)
  {
    PushesAppend<T>([], xs, cap);
    assert [] + xs == xs;
    assert [Assign(xs)][1..] == [];
    assert Run(Apply([], Assign(xs), cap), [], cap) == Prefix(xs, cap);
  }
}

module BoundedVector {
  import opened BoundedSeq

  class Vector<T(0, ==)> {
    const data_: array<T>
    var size_: nat

    ghost predicate Valid()
      reads this
    {
      size_ <= data_.Length
    }

    function Contents(): seq<T>
      reads this, data_
      requires Valid()
    {
      data_[..size_]
    }

    constructor (capacity: nat)
      ensures Valid() && fresh(data_) && data_.Length == capacity && Contents() == []
    {
      data_ := new T[capacity];
      size_ := 0;
    }

    /** `vector(size, val)`: as many copies as fit. */
    constructor Filled(capacity: nat, size: nat, val: T)
      ensures Valid() && fresh(data_) && data_.Length == capacity
      ensures Contents() == Prefix(Repeat(val, size), capacity)
    {
      data_ := new T[capacity];
      size_ := 0;
      new;
      for i := 0 to size
        invariant Valid() && Contents() == Prefix(Repeat(val, i), capacity)
      {
        PushBack(val);
      }
    }

    /** The copy constructor, which takes over the size before it clears and assigns. */
    constructor CopyOf(vec: Vector<T>)
      requires vec.Valid()
      ensures Valid() && fresh(data_) && data_.Length == vec.data_.Length && Contents() == vec.Contents()
    {
      data_ := new T[vec.data_.Length];
      size_ := vec.size_;
      new;
      if size_ != 0 {
        Assign(vec.Contents());
      }
    }

    method PushBack(x: T)
      requires Valid()
      modifies this`size_, data_
      ensures Valid() && Contents() == Apply(old(Contents()), Op.PushBack(x), data_.Length)
    {
      if size_ < data_.Length {
        data_[size_] := x;
        size_ := size_ + 1;
      }
    }

    method PopBack()
      requires Valid()
      modifies this`size_
      ensures Valid() && Contents() == Apply(old(Contents()), Op.PopBack, data_.Length)
    {
      if size_ != 0 {
        size_ := size_ - 1;
      }
    }

    method Clear()
      requires Valid()
      modifies this`size_
      ensures Valid() && Contents() == Apply(old(Contents()), Op.Clear, data_.Length)
    {
      while size_ != 0
        invariant Valid()
        decreases size_
      {
        PopBack();
      }
    }

    method Assign(xs: seq<T>)
      requires Valid()
      modifies this`size_, data_
      ensures Valid() && Contents() == Apply(old(Contents()), Op.Assign(xs), data_.Length)
    {
      Clear();
      for i := 0 to |xs|
        invariant Valid() && Contents() == Prefix(xs[..i], data_.Length)
      {
        PushBack(xs[i]);
        assert xs[..i + 1] == xs[..i] + [xs[i]];
      }
      assert xs[..|xs|] == xs;
    }

    method Resize(newSize: nat, fill: T)
      requires Valid()
      modifies this`size_, data_
      ensures Valid() && Contents() == Apply(old(Contents()), Op.Resize(newSize, fill), data_.Length)
      ensures size_ == if newSize <= data_.Length then newSize else old(size_)
      ensures forall i :: 0 <= i < size_ ==> data_[i] == if i < old(size_) then old(data_[i]) else fill
    {
      if newSize <= data_.Length {
        ghost var was := Contents();
        while size_ < newSize
          invariant Valid() && |was| <= size_ && (size_ <= newSize || size_ == |was|)
          invariant Contents() == was + Repeat(fill, size_ - |was|)
        {
          data_[size_] := fill;
          size_ := size_ + 1;
        }
        while size_ > newSize
          invariant Valid() && size_ >= newSize
          invariant |was| <= newSize ==> size_ == newSize && Contents() == was + Repeat(fill, newSize - |was|)
          invariant |was| > newSize ==> size_ <= |was| && Contents() == was[..size_]
        {
          size_ := size_ - 1;
        }
      }
    }

    /** `operator=`: the other vector has the same capacity in the source. */
    method CopyAssign(rhs: Vector<T>)
      requires Valid() && rhs.Valid() && rhs.data_.Length == data_.Length
      requires this != rhs ==> data_ != rhs.data_
      modifies this`size_, data_
      ensures Valid() && Contents() == old(rhs.Contents())
    {
      if this != rhs {
        if rhs.size_ != 0 {
          Assign(rhs.Contents());
        } else {
          Clear();
        }
      }
    }

    method Equals(vec: Vector<T>) returns (eq: bool)
      requires Valid() && vec.Valid()
      ensures eq <==> Contents() == vec.Contents()
    {
      if size_ != vec.size_ {
        return false;
      }
      for i := 0 to size_
        invariant Contents()[..i] == vec.Contents()[..i]
      {
        if data_[i] != vec.data_[i] {
          assert Contents()[i] != vec.Contents()[i];
          return false;
        }
      }
      assert Contents()[..size_] == Contents() && vec.Contents()[..size_] == vec.Contents();
      return true;
    }
  }

  /** A copy compares equal to its original. */
  method CopiesCompareEqual<T(0, ==)>(v: Vector<T>) returns (copy: Vector<T>, eq: bool)
    requires v.Valid()
    ensures eq && fresh(copy) && copy.Valid() && copy.Contents() == v.Contents()
  {
    copy := new Vector<T>.CopyOf(v);
    eq := copy.Equals(v);
  }

  /** Any run of operations leaves the vector with what the same run leaves on sequences. */
  method Execute<T(0, ==)>(v: Vector<T>, ops: seq<Op<T>>)
    requires v.Valid()
    modifies v`size_, v.data_
    ensures v.Valid() && v.Contents() == Run(old(v.Contents()), ops, v.data_.Length)
  {
    var i := 0;
    assert ops[0..] == ops;
    while i < |ops|
      invariant 0 <= i <= |ops| && v.Valid()
      invariant Run(v.Contents(), ops[i..], v.data_.Length) == Run(old(v.Contents()), ops, v.data_.Length)
    {
      assert ops[i..][0] == ops[i] && ops[i..][1..] == ops[i + 1..];
      match ops[i] {
        case PushBack(x) => v.PushBack(x);
        case PopBack => v.PopBack();
        case Clear => v.Clear();
        case Assign(xs) => v.Assign(xs);
        case Resize(n, fill) => v.Resize(n, fill);
      }
      i := i + 1;
    }
  }
}

module ClString {
  import opened Common

  const NUL := '\0'

  /** A `const char*`: NULL, or the characters from there to the end of their buffer. */
  type CharPointer = Option<string>

  predicate InBuffer(str: CharPointer, i: nat) {
    str.Some? && i < |str.value|
  }

  /** Every character `memcpy(str_, str, size)` reads is in the buffer. */
  ghost predicate ReadsInside(str: CharPointer, size: nat) {
    forall i: nat :: i < size ==> InBuffer(str, i)
  }

  /** The constructor from a pointer and a size reads inside a buffer exactly when there is nothing
      to read or the pointer is not NULL and enough characters follow it. For NULL, which its
      documentation accepts with any size, that leaves size 0 only. */
  lemma ReadsInsideIff(str: CharPointer, size: nat)
    ensures ReadsInside(str, size) <==> size == 0 || (str.Some? && size <= |str.value|)
  {
    if size > 0 {
      assert ReadsInside(str, size) ==> InBuffer(str, size - 1);
    }
  }

  /** The least input of that family. */
  lemma NullIsRead()
    ensures !ReadsInside(None, 1)
  {
    ReadsInsideIff(None, 1);
  }

  /** The first `n` characters, padded with NULs: what `resize(n)` leaves. */
  function Resized(s: string, n: nat): (r: string)
    ensures |r| == n
    ensures forall i :: 0 <= i < n ==> r[i] == if i < |s| then s[i] else NUL
  {
    if n <= |s| then s[..n] else s + seq(n - |s|, _ => NUL)
  }

  // `strlen`: the index of the first NUL.
  function StrLen(s: string): (n: nat)
    requires NUL in s
    ensures n < |s| && s[n] == NUL && forall i :: 0 <= i < n ==> s[i] != NUL
  {
    if s[0] == NUL then 0 else 1 + StrLen(s[1..])
  }

  class String {
    var size_: nat
    var str_: array?<char>

    /** A NUL stands at index `size_`, and only the empty string owns no buffer. */
    ghost predicate Valid()
      reads this, str_
    {
      if str_ == null then size_ == 0 else size_ > 0 && str_.Length == size_ + 1 && str_[size_] == NUL
    }

    function Contents(): string
      reads this, str_
      requires Valid()
    {
      if str_ == null then "" else str_[..size_]
    }

    constructor ()
      ensures Valid() && Contents() == ""
    {
      size_, str_ := 0, null;
    }

    /** `string(const char*, size)`: the first `size` characters of a buffer, NULs included. */
    constructor FromBuffer(str: CharPointer, size: nat)
      requires ReadsInside(str, size)
      ensures Valid() && (str_ == null || fresh(str_))
      ensures if size == 0 then Contents() == ""
              else str.Some? && size <= |str.value| && Contents() == str.value[..size]
    {
      size_, str_ := size, null;
      new;
      ReadsInsideIff(str, size);
      if size > 0 {
        var buffer := new char[size + 1](i requires 0 <= i <= size => if i < size then str.value[i] else NUL);
        str_ := buffer;
      }
    }

    /** `string(const char*)`: up to the terminating NUL; NULL gives the empty string. */
    constructor FromCString(str: CharPointer)
      requires str.Some? ==> NUL in str.value
      ensures Valid() && (str_ == null || fresh(str_))
      ensures Contents() == if str.None? then "" else str.value[..StrLen(str.value)]
    {
      size_, str_ := if str.None? then 0 else StrLen(str.value), null;
      new;
      if size_ > 0 {
        var n := size_;
        var buffer := new char[n + 1](i requires 0 <= i <= n => str.value[i]);
        str_ := buffer;
      }
    }

    method Resize(n: nat)
      requires Valid()
      modifies this
      ensures Valid() && Contents() == Resized(old(Contents()), n)
      ensures n == old(size_) || str_ == null || fresh(str_)
    {
      if size_ == n {
        return;
      }
      if n == 0 {
        str_ := null;
        size_ := 0;
      } else {
        var newString := new char[n + 1];
        var copySize := n;
        if size_ < n {
          copySize := size_;
        }
        ghost var was := Contents();
        size_ := n;
        if str_ != null {
          CopyChars(newString, str_, copySize + 1);
        }
        if copySize < size_ {
          ZeroChars(newString, copySize, size_);
        }
        newString[size_] := NUL;
        str_ := newString;
      }
    }

    /** `operator=`. */
    method CopyAssign(rhs: String)
      requires Valid() && rhs.Valid()
      modifies this
      ensures Valid() && Contents() == old(rhs.Contents())
      ensures this != rhs ==> str_ == null || fresh(str_)
    {
      if this == rhs {
        return;
      }
      str_ := null;
      size_ := 0;
      if rhs.size_ != 0 && rhs.str_ != null {
        var n := rhs.size_;
        var buffer := new char[n + 1];
        CopyChars(buffer, rhs.str_, n + 1);
        size_ := n;
        str_ := buffer;
      }
    }

    /** `c_str()`: never a null pointer, always terminated after the contents. */
    method CStr() returns (s: string)
      requires Valid()
      ensures s == Contents() + [NUL]
    {
      if str_ == null {
        return [NUL];
      }
      return str_[..];
    }
  }

  // memcpy
  method CopyChars(dst: array<char>, src: array<char>, n: nat)
    requires n <= dst.Length && n <= src.Length && dst != src
    modifies dst
    ensures dst[..n] == src[..n] && dst[n..] == old(dst[n..])
  {
    for i := 0 to n
      invariant dst[..i] == src[..i] && dst[n..] == old(dst[n..])
    {
      dst[i] := src[i];
    }
  }

  // memset(dst + lo, 0, hi - lo)
  method ZeroChars(dst: array<char>, lo: nat, hi: nat)
    requires lo <= hi <= dst.Length
    modifies dst
    ensures dst[..lo] == old(dst[..lo]) && dst[hi..] == old(dst[hi..])
    ensures forall i :: lo <= i < hi ==> dst[i] == NUL
  {
    for i := lo to hi
      invariant dst[..lo] == old(dst[..lo]) && dst[hi..] == old(dst[hi..])
      invariant forall k :: lo <= k < i ==> dst[k] == NUL
    {
      dst[i] := NUL;
    }
  }
}
