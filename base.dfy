/** Small building blocks shared by every module of the model. */
module Base {

  datatype Option<+T> = None | Some(value: T)

  /** JavaScript's `s.substring(0, n)`: the first `n` characters of `s`, or all of it. */
  function Truncate(s: string, n: nat): (r: string)
    ensures |r| == if |s| <= n then |s| else n
    ensures r <= s
  {
    if |s| <= n then s else s[..n]
  }
}
