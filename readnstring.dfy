/**
 * The `truffle_read_n_string` intrinsic of the LLVM interpreter
 * (LLVMTruffleReadNString.java): it turns `n` bytes into a string whose
 * characters are the bytes read as unsigned values.
 *
 * Native memory is a map from addresses to bytes. A foreign object is its
 * read message: reading an index yields a byte (after conversion to an LLVM
 * byte) or fails. The three specializations of the node are three methods,
 * chosen by `Execute` on the run-time classes of the two arguments.
 */
module ReadNString {
  import opened Wrappers

  /** A Java `int`. */
  type Int = x: int | -0x8000_0000 <= x < 0x8000_0000

  type Memory = map<int, bv8>

  /** A foreign object as its read message: `None` is an unknown index or an unsupported read. */
  datatype ForeignObject = ForeignObject(read: int -> Option<bv8>)

  /** The run-time value of an argument, as far as the node's specializations tell them apart. */
  datatype Value =
    | Address(address: int)
    | ObjectWithOffset(target: ForeignObject, offset: int)
    | IntValue(intValue: Int)
    | OtherValue

  /** The Java exceptions the intrinsic ends with. */
  datatype Error = IllegalState | NegativeArraySize | IllegalArgument

  /** `(char) Byte.toUnsignedInt(b)`. */
  function ByteChar(b: bv8): (c: char)
    ensures c as int == b as int && c as int < 256
  {
    (b as int) as char
  }

  /** The addresses `ptr .. ptr + count - 1` are all mapped. */
  predicate Mapped(mem: Memory, ptr: int, count: nat)
  {
    forall a :: ptr <= a < ptr + count ==> a in mem
  }

  function Count(n: Int): nat
  {
    if n < 0 then 0 else n
  }

  /** The characters of the `count` bytes from `ptr` upward, in address order. */
  function Chars(mem: Memory, ptr: int, count: nat): string
    requires Mapped(mem, ptr, count)
  {
    if count == 0 then []
    else Chars(mem, ptr, count - 1) + [ByteChar(mem[ptr + count - 1])]
  }

  /** Character `i` is the unsigned byte at address `ptr + i`. */
  lemma {:induction false} CharsSpec(mem: Memory, ptr: int, count: nat)
    requires Mapped(mem, ptr, count)
    ensures |Chars(mem, ptr, count)| == count
    ensures forall i :: 0 <= i < count ==>
      Chars(mem, ptr, count)[i] as int == mem[ptr + i] as int < 256
  {
    if count > 0 {
      CharsSpec(mem, ptr, count - 1);
    }
  }

  /** Only the `count` bytes from `ptr` are read: memories agreeing there give the same string. */
  lemma {:induction false} CharsFrame(m1: Memory, m2: Memory, ptr: int, count: nat)
    requires Mapped(m1, ptr, count) && Mapped(m2, ptr, count)
    requires forall a :: ptr <= a < ptr + count ==> m1[a] == m2[a]
    ensures Chars(m1, ptr, count) == Chars(m2, ptr, count)
  {
    if count > 0 {
      CharsFrame(m1, m2, ptr, count - 1);
    }
  }

  /**
   * `getString`: a negative `n` counts as zero; otherwise the `n` bytes from
   * `ptr` become the characters of the result.
   */
  method GetString(mem: Memory, ptr: int, n: Int) returns (s: string)
    requires Mapped(mem, ptr, Count(n))
    ensures s == Chars(mem, ptr, Count(n))
  {
    var count := if n < 0 then 0 else n;
    var sb := [];
    var p := ptr;
    var i := 0;
    while i < count
      invariant 0 <= i <= count && p == ptr + i
      invariant sb == Chars(mem, ptr, i)
    {
      sb := sb + [ByteChar(mem[p])];
      p := p + 1;
      i := i + 1;
    }
    s := sb;
  }

  /** What `getString` promises: length `max(n, 0)`, the bytes in order, nothing for negative `n`. */
  lemma GetStringResult(mem: Memory, ptr: int, n: Int)
    requires Mapped(mem, ptr, Count(n))
    ensures |Chars(mem, ptr, Count(n))| == if n < 0 then 0 else n
    ensures n <= 0 ==> Chars(mem, ptr, Count(n)) == []
    ensures forall i :: 0 <= i < n ==> Chars(mem, ptr, Count(n))[i] as int == mem[ptr + i] as int
  {
    CharsSpec(mem, ptr, Count(n));
  }

  /** The foreign reads of indices `offset .. offset + count - 1`, or `None` if any one fails. */
  function ForeignChars(target: ForeignObject, offset: int, count: nat): Option<string>
  {
    if count == 0 then Some([])
    else match ForeignChars(target, offset, count - 1)
      case None => None
      case Some(s) =>
        match target.read(offset + count - 1)
        case None => None
        case Some(b) => Some(s + [ByteChar(b)])
  }

  /** Every read in range succeeds. */
  predicate AllReadable(target: ForeignObject, offset: int, count: nat)
  {
    forall j :: offset <= j < offset + count ==> target.read(j).Some?
  }

  /**
   * The foreign string exists exactly when every read succeeds; then it has
   * `count` characters and character `i` is the byte read at `offset + i`.
   */
  lemma {:induction false} ForeignCharsSpec(target: ForeignObject, offset: int, count: nat)
    ensures ForeignChars(target, offset, count).Some? <==> AllReadable(target, offset, count)
    ensures ForeignChars(target, offset, count).Some? ==>
      |ForeignChars(target, offset, count).value| == count &&
      forall i :: 0 <= i < count ==>
        ForeignChars(target, offset, count).value[i] == ByteChar(target.read(offset + i).value)
  {
    if count > 0 {
      ForeignCharsSpec(target, offset, count - 1);
      var last := offset + count - 1;
      if ForeignChars(target, offset, count).Some? {
        var s := ForeignChars(target, offset, count - 1).value;
        assert target.read(last).Some?;
        assert ForeignChars(target, offset, count).value == s + [ByteChar(target.read(last).value)];
        forall j | offset <= j < offset + count
          ensures target.read(j).Some?
        {
          if j < last {
            assert AllReadable(target, offset, count - 1);
          }
        }
      } else if AllReadable(target, offset, count) {
        assert AllReadable(target, offset, count - 1);
        assert false;
      }
    }
  }

  /** The outcome of `interop`: the array size is checked before any read. */
  function InteropResult(target: ForeignObject, offset: int, n: Int): Result<string, Error>
  {
    if n < 0 then Err(NegativeArraySize)
    else match ForeignChars(target, offset, n)
      case None => Err(IllegalState)
      case Some(s) => Ok(s)
  }

  /**
   * `interop`: fills a fresh `char[n]` with the bytes read from the foreign
   * object at `offset + i`; the first failed read ends the call with an
   * `IllegalStateException` and no string.
   */
  method Interop(target: ForeignObject, offset: int, n: Int) returns (r: Result<string, Error>)
    ensures r == InteropResult(target, offset, n)
  {
    if n < 0 {
      return Err(NegativeArraySize);
    }
    var chars := new char[n];
    var i := 0;
    while i < n
      invariant 0 <= i <= n
      invariant ForeignChars(target, offset, i).Some?
      invariant chars[..i] == ForeignChars(target, offset, i).value
    {
      var rawValue := target.read(offset + i);
      if rawValue.None? {
        assert ForeignChars(target, offset, i + 1).None?;
        ForeignCharsFailurePersists(target, offset, i + 1, n);
        return Err(IllegalState);
      }
      chars[i] := ByteChar(rawValue.value);
      assert chars[..i + 1] == chars[..i] + [chars[i]];
      i := i + 1;
    }
    assert chars[..] == chars[..n];
    r := Ok(chars[..]);
  }

  /** Once a prefix of the reads fails, every longer run of reads fails. */
  lemma {:induction false} ForeignCharsFailurePersists(target: ForeignObject, offset: int, k: nat, count: nat)
    requires k <= count && ForeignChars(target, offset, k).None?
    ensures ForeignChars(target, offset, count).None?
    decreases count - k
  {
    if k < count {
      ForeignCharsFailurePersists(target, offset, k + 1, count);
    }
  }

  /** What `interop` promises, in both directions. */
  lemma InteropOutcomes(target: ForeignObject, offset: int, n: Int)
    ensures InteropResult(target, offset, n) == Err(NegativeArraySize) <==> n < 0
    ensures InteropResult(target, offset, n) == Err(IllegalState) <==>
      n >= 0 && !AllReadable(target, offset, n)
    ensures InteropResult(target, offset, n).Ok? <==> n >= 0 && AllReadable(target, offset, n)
    ensures InteropResult(target, offset, n).Ok? ==>
      |InteropResult(target, offset, n).value| == n &&
      forall i :: 0 <= i < n ==>
        target.read(offset + i).Some? &&
        InteropResult(target, offset, n).value[i] as int == target.read(offset + i).value as int < 256
  {
    if n >= 0 {
      ForeignCharsSpec(target, offset, n);
    }
  }

  /** `fallback`: any other pair of arguments; the diagnostic line it prints is not modelled. */
  method Fallback(value: Value, n: Value) returns (r: Result<string, Error>)
    ensures r == Err(IllegalArgument)
  {
    r := Err(IllegalArgument);
  }

  /** The specialization the node selects for a pair of argument values. */
  function Selected(value: Value, n: Value): nat
  {
    if value.Address? && n.IntValue? then 0
    else if value.ObjectWithOffset? && n.IntValue? then 1
    else 2
  }

  /** Native arguments must point at mapped memory for all the bytes read. */
  predicate NativeReadable(mem: Memory, value: Value, n: Value)
  {
    value.Address? && n.IntValue? ==> Mapped(mem, value.address, Count(n.intValue))
  }

  /** The node: the address path, the foreign-target path, or the fallback. */
  method Execute(mem: Memory, value: Value, n: Value) returns (r: Result<string, Error>)
    requires NativeReadable(mem, value, n)
    ensures Selected(value, n) == 0 ==> r == Ok(Chars(mem, value.address, Count(n.intValue)))
    ensures Selected(value, n) == 1 ==> r == InteropResult(value.target, value.offset, n.intValue)
    ensures Selected(value, n) == 2 <==> r == Err(IllegalArgument)
  {
    if value.Address? && n.IntValue? {
      var s := GetString(mem, value.address, n.intValue);
      r := Ok(s);
    } else if value.ObjectWithOffset? && n.IntValue? {
      r := Interop(value.target, value.offset, n.intValue);
      InteropOutcomes(value.target, value.offset, n.intValue);
    } else {
      r := Fallback(value, n);
    }
  }
}
