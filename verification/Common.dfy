/** Small value types shared by every component of the model. */
module Common {

  datatype Option<+T> = None | Some(value: T)

  datatype Result<+T, +E> = Ok(value: T) | Err(error: E)

  type Byte = x: int | 0 <= x < 256

  type Bytes = seq<Byte>

  /** A file's device and inode. */
  type Id = (nat, nat)

  function Min(a: int, b: int): int { if a < b then a else b }

  function Max(a: int, b: int): int { if a < b then b else a }

  /** The standard library's sort.Search: the smallest index in [0, n] from which f holds, for an f
      that never goes back from true to false. */
  method Search(n: nat, f: int --> bool) returns (i: nat)
    requires forall k :: 0 <= k < n ==> f.requires(k)
    requires forall k, m :: 0 <= k <= m < n && f(k) ==> f(m)
    ensures i <= n
    ensures forall k :: 0 <= k < i ==> !f(k)
    ensures forall k :: i <= k < n ==> f(k)
  {
    i := 0;
    var j := n;
    while i < j
      invariant 0 <= i <= j <= n
      invariant forall k :: 0 <= k < i ==> !f(k)
      invariant forall k :: j <= k < n ==> f(k)
    {
      var h := (i + j) / 2;
      if !f(h) {
        i := h + 1;
      } else {
        j := h;
      }
    }
  }
}
