/** Text utilities the script emitter is stated with: concatenating one fragment
    per item, and the line view of a text (a list of lines, each ended by a newline). */
module Text {

  /** The concatenation of f(x) for every x of xs, in order. */
  function ConcatMap(f: string -> string, xs: seq<string>): string
  {
    if xs == [] then "" else f(xs[0]) + ConcatMap(f, xs[1..])
  }

  /** Concatenating per item distributes over list concatenation. */
  lemma {:induction false} ConcatMapAppend(f: string -> string, xs: seq<string>, ys: seq<string>)
    ensures ConcatMap(f, xs + ys) == ConcatMap(f, xs) + ConcatMap(f, ys)
  {
    if xs == [] {
      assert xs + ys == ys;
    } else {
      assert (xs + ys)[0] == xs[0];
      assert (xs + ys)[1..] == xs[1..] + ys;
      ConcatMapAppend(f, xs[1..], ys);
    }
  }

  /** Adding one item at the end adds its fragment at the end. */
  lemma ConcatMapSnoc(f: string -> string, xs: seq<string>, x: string)
    ensures ConcatMap(f, xs + [x]) == ConcatMap(f, xs) + f(x)
  {
    ConcatMapAppend(f, xs, [x]);
    assert [x][1..] == [];
  }

  /** The first two parts of a concatenation can be cut back out of it. */
  lemma FirstTwo<T>(a: seq<T>, b: seq<T>, rest: seq<T>)
    ensures |a| + |b| <= |a + b + rest|
    ensures (a + b + rest)[..|a|] == a && (a + b + rest)[|a|..|a| + |b|] == b
  {
    assert a + b + rest == a + (b + rest);
  }

  /** Concatenation is associative; stated once so that proofs about long
      texts can regroup them one step at a time. */
  lemma Associate<T>(a: seq<T>, b: seq<T>, c: seq<T>)
    ensures a + (b + c) == a + b + c
  {
  }

  function Terminated(l: string): string
  {
    l + "\n"
  }

  /** The text made of the lines ls, each followed by a newline. */
  function Unlines(ls: seq<string>): string
  {
    ConcatMap(Terminated, ls)
  }

  /** One more line in front adds that line and its newline in front. */
  lemma UnlinesCons(l: string, ls: seq<string>)
    ensures Unlines([l] + ls) == l + "\n" + Unlines(ls)
  {
    assert ([l] + ls)[0] == l;
    assert ([l] + ls)[1..] == ls;
  }

  lemma UnlinesAppend(a: seq<string>, b: seq<string>)
    ensures Unlines(a + b) == Unlines(a) + Unlines(b)
  {
    ConcatMapAppend(Terminated, a, b);
  }
}
