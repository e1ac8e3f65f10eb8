/** Types shared by all the models. */
module Common {
  /** An octet, `uint8_t`. */
  type byte = x: int | 0 <= x < 256

  datatype Option<+T> = None | Some(value: T)

  /** The concatenation of a list of strings, as an `iovec` list is merged. */
  function Flatten<T>(parts: seq<seq<T>>): (r: seq<T>) {
    if parts == [] then [] else parts[0] + Flatten(parts[1..])
  }

  lemma {:induction false} FlattenAppend<T>(xs: seq<seq<T>>, ys: seq<seq<T>>)
    ensures Flatten(xs + ys) == Flatten(xs) + Flatten(ys)
  {
    if xs == [] {
      assert xs + ys == ys;
    } else {
      calc {
        Flatten(xs + ys);
        { assert (xs + ys)[0] == xs[0] && (xs + ys)[1..] == xs[1..] + ys; }
        xs[0] + Flatten(xs[1..] + ys);
        { FlattenAppend(xs[1..], ys); }
        xs[0] + (Flatten(xs[1..]) + Flatten(ys));
        (xs[0] + Flatten(xs[1..])) + Flatten(ys);
      }
    }
  }

  lemma Regroup<T>(a: seq<T>, b: seq<T>, c: seq<T>)
    ensures (a + b) + c == a + (b + c)
  {
  }

  /** The last of the elements put behind `a`. */
  lemma PutLast<T>(a: seq<T>, s: seq<T>)
    requires s != []
    ensures s[..|s| - 1] + [s[|s| - 1]] == s
    ensures (a + s[..|s| - 1]) + [s[|s| - 1]] == a + s
  {
  }

  lemma TakeAndDrop<T>(a: seq<T>, b: seq<T>)
    ensures (a + b)[..|a|] == a && (a + b)[|a|..] == b && a + b[..0] == a
  {
  }

  /** A slice with something behind it, cut in two. */
  lemma CutSlice<T>(s: seq<T>, n: nat, h: nat, m: nat, rest: seq<T>)
    requires n <= h <= m <= |s|
    ensures s[..n] + (s[n..m] + rest)[..h - n] == s[..h]
    ensures (s[n..m] + rest)[h - n..] == s[h..m] + rest
  {
  }

  lemma TakeInTwo<T>(s: seq<T>, m: nat, n: nat)
    requires m <= n <= |s|
    ensures s[..m] + s[m..][..n - m] == s[..n]
  {
  }

  lemma SameTails<T>(s: seq<T>, t: seq<T>, m: nat, n: nat)
    requires m <= n <= |s| == |t| && s[m..] == t[m..]
    ensures s[n..] == t[n..]
  {
    assert s[n..] == s[m..][n - m..] && t[n..] == t[m..][n - m..];
  }
}
