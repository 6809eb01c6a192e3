/** The mutable buffers the crate writes secrets into: a growable vector, a fixed array
    that is cleared when consumed, and the operating system's random generator. */
module Buffers {
  import opened Symbolic

  /** A Rust `Vec`: `data.Length` is the capacity. `moves` counts reallocations, each of
      which leaves the previous buffer behind as it was. */
  class Vec<T(0)> {
    var data: array<T>
    var len: nat
    var moves: nat

    ghost predicate Valid()
      reads this
    {
      len <= data.Length
    }

    function Contents(): (s: seq<T>)
      requires Valid()
      reads this, data
    {
      data[..len]
    }

    constructor WithCapacity(capacity: nat)
      ensures Valid() && fresh(data) && data.Length == capacity
      ensures Contents() == [] && moves == 0
    {
      data := new T[capacity];
      len, moves := 0, 0;
    }

    method ExtendFromSlice(xs: seq<T>)
      requires Valid()
      modifies this, data
      ensures Valid() && Contents() == old(Contents()) + xs
      ensures old(len + |xs| <= data.Length) ==> data == old(data) && moves == old(moves)
      ensures old(len + |xs| > data.Length) ==> fresh(data) && moves == old(moves) + 1 && old(data)[..] == old(data[..])
    {
      if data.Length < len + |xs| {
        var bigger := new T[2 * (len + |xs|)];
        forall i | 0 <= i < len { bigger[i] := data[i]; }
        data, moves := bigger, moves + 1;
      }
      assert data[..len] == old(Contents());
      forall i | 0 <= i < |xs| { data[len + i] := xs[i]; }
      assert data[..len] == old(Contents());
      assert data[len..len + |xs|] == xs;
      len := len + |xs|;
    }

    /** Overwrite every element in use with `zero`. */
    method Zeroize(zero: T)
      requires Valid()
      modifies data
      ensures forall i | 0 <= i < len :: data[i] == zero
      ensures forall i | len <= i < data.Length :: data[i] == old(data[i])
    {
      forall i | 0 <= i < len { data[i] := zero; }
    }
  }

  /** An array holding a secret, cleared by `IntoInner` and by `Drop`. */
  class SecretArray {
    const data: array<Sym>

    constructor Zeroed(n: nat)
      ensures fresh(data) && data[..] == Zeros(n)
    {
      data := new Sym[n](_ => Lit(0));
      new;
      assert data[..] == Zeros(n);
    }

    constructor New(bytes: Str)
      ensures fresh(data) && data[..] == bytes
    {
      data := new Sym[|bytes|](i requires 0 <= i < |bytes| => bytes[i]);
      new;
      assert data[..] == bytes;
    }

    /** Hand the bytes over and leave nothing behind. */
    method IntoInner() returns (out: Str)
      modifies data
      ensures out == old(data[..]) && data[..] == Zeros(data.Length)
    {
      out := data[..];
      Drop();
    }

    method Drop()
      modifies data
      ensures data[..] == Zeros(data.Length)
    {
      forall i | 0 <= i < data.Length { data[i] := Lit(0); }
      assert data[..] == Zeros(data.Length);
    }
  }

  /** Bytes of the draw numbered `id`. */
  function Draw(origin: Origin, id: nat, n: nat): (s: Str)
    ensures |s| == n
  {
    Expand(Fresh(origin, id), n)
  }

  /** The random generator: no two calls return the same draw. */
  class OsRng {
    var next: nat

    constructor ()
    {
      next := 0;
    }

    method FillBytes(origin: Origin, buf: array<Sym>)
      modifies this, buf
      ensures next == old(next) + 1
      ensures buf[..] == Draw(origin, old(next), buf.Length)
    {
      var id := next;
      forall i | 0 <= i < buf.Length { buf[i] := Of(Fresh(origin, id), i); }
      next := id + 1;
      assert buf[..] == Draw(origin, id, buf.Length);
    }
  }

  /** Rust's `copy_from_slice`: the lengths must agree. */
  method CopyFromSlice<T>(dst: array<T>, src: seq<T>)
    requires dst.Length == |src|
    modifies dst
    ensures dst[..] == src
  {
    forall i | 0 <= i < |src| { dst[i] := src[i]; }
    assert dst[..] == src;
  }
}
