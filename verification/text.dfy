/** String building blocks shared by the emitter and the assembler.

    The generator builds every section of its output by pushing one fragment
    per argument onto a string, in list order. `ConcatMap` is that pattern as a
    function; the lemmas below say where each item's fragment ends up. */
module Text {

  /** The fragments `f(x)` of every `x` in `xs`, concatenated in list order. */
  function ConcatMap<T>(f: T -> string, xs: seq<T>): string
  {
    if xs == [] then "" else f(xs[0]) + ConcatMap(f, xs[1..])
  }

  /** `f` applied to every element of `xs`, in order. */
  function Map<T, U>(f: T -> U, xs: seq<T>): seq<U>
  {
    if xs == [] then [] else [f(xs[0])] + Map(f, xs[1..])
  }

  lemma {:induction false} ConcatMapAppend<T>(f: T -> string, xs: seq<T>, ys: seq<T>)
    ensures ConcatMap(f, xs + ys) == ConcatMap(f, xs) + ConcatMap(f, ys)
  {
    if xs == [] {
      assert xs + ys == ys;
    } else {
      assert (xs + ys)[1..] == xs[1..] + ys;
      ConcatMapAppend(f, xs[1..], ys);
    }
  }

  lemma ConcatMapOne<T>(f: T -> string, x: T)
    ensures ConcatMap(f, [x]) == f(x)
  {
    assert [x][1..] == [];
  }

  /** Pushing one more item's fragment extends the text by exactly that fragment. */
  lemma ConcatMapSnoc<T>(f: T -> string, xs: seq<T>, x: T)
    ensures ConcatMap(f, xs + [x]) == ConcatMap(f, xs) + f(x)
  {
    ConcatMapAppend(f, xs, [x]);
    ConcatMapOne(f, x);
  }

  /** Item `k`'s fragment sits between the fragments of the items before it and
      those of the items after it. */
  lemma ConcatMapSplit<T>(f: T -> string, xs: seq<T>, k: nat)
    requires k < |xs|
    ensures ConcatMap(f, xs) == ConcatMap(f, xs[..k]) + f(xs[k]) + ConcatMap(f, xs[k + 1..])
  {
    assert xs == xs[..k + 1] + xs[k + 1..];
    ConcatMapAppend(f, xs[..k + 1], xs[k + 1..]);
    ConcatMapTake(f, xs, k);
  }

  /** `x` occurs in `t` at offset `p`. */
  predicate OccursAt(t: string, x: string, p: nat)
  {
    p + |x| <= |t| && t[p..p + |x|] == x
  }

  /** `x` occurs in `t`, and `y` occurs in `t` after the end of that occurrence. */
  ghost predicate OccursBefore(t: string, x: string, y: string)
  {
    exists p: nat, q: nat :: OccursAt(t, x, p) && OccursAt(t, y, q) && p + |x| <= q
  }

  /** Order preservation: for i < j, item i's fragment lies wholly before item j's. */
  lemma ConcatMapOrder<T>(f: T -> string, xs: seq<T>, i: nat, j: nat)
    requires i < j < |xs|
    ensures ConcatMap(f, xs) ==
            ConcatMap(f, xs[..i]) + f(xs[i]) + ConcatMap(f, xs[i + 1..j]) + f(xs[j]) + ConcatMap(f, xs[j + 1..])
  {
    var front, mid, back := xs[..i], xs[i + 1..j], xs[j + 1..];
    var p := front + [xs[i]] + mid;
    assert xs[..j] == p;
    ConcatMapSplit(f, xs, j);
    ConcatMapAppend(f, front + [xs[i]], mid);
    ConcatMapSnoc(f, front, xs[i]);
  }

  /** Embedding lemma: the order of two fragments survives any fixed text put
      around the concatenation. */
  lemma ConcatMapOccursBefore<T>(f: T -> string, xs: seq<T>, i: nat, j: nat, pre: string, post: string)
    requires i < j < |xs|
    ensures OccursBefore(pre + ConcatMap(f, xs) + post, f(xs[i]), f(xs[j]))
  {
    ConcatMapOrder(f, xs, i, j);
    SplitOccurs(pre, ConcatMap(f, xs[..i]), f(xs[i]), ConcatMap(f, xs[i + 1..j]), f(xs[j]), ConcatMap(f, xs[j + 1..]), post);
  }

  lemma SplitOccurs(pre: string, a: string, x: string, b: string, y: string, c: string, post: string)
    ensures OccursBefore(pre + (a + x + b + y + c) + post, x, y)
  {
    var t := pre + (a + x + b + y + c) + post;
    var p, q := |pre| + |a|, |pre| + |a| + |x| + |b|;
    assert t[p..p + |x|] == x;
    assert t[q..q + |y|] == y;
    assert OccursAt(t, x, p) && OccursAt(t, y, q);
  }

  /** Items whose fragment is empty contribute nothing at all. */
  lemma {:induction false} ConcatMapSilent<T>(f: T -> string, xs: seq<T>)
    requires forall k | 0 <= k < |xs| :: f(xs[k]) == ""
    ensures ConcatMap(f, xs) == ""
  {
    if xs != [] {
      assert f(xs[0]) == "";
      ConcatMapSilent(f, xs[1..]);
    }
  }

  /** Concatenating `f` over a mapped list is concatenating `h` over the
      original one, when `h` is `f` after `g`. */
  lemma {:induction false} ConcatMapOfMap<T, U>(h: T -> string, f: U -> string, g: T -> U, xs: seq<T>)
    requires forall x :: h(x) == f(g(x))
    ensures ConcatMap(h, xs) == ConcatMap(f, Map(g, xs))
  {
    if xs != [] {
      assert Map(g, xs) == [g(xs[0])] + Map(g, xs[1..]);
      ConcatMapOfMap(h, f, g, xs[1..]);
    }
  }

  /** The longest prefix of `s` in which `c` does not occur: the token a reader
      takes before the next `c`. */
  function UpTo(s: string, c: char): (r: string)
    ensures r <= s && c !in r
    ensures |r| < |s| ==> s[|r|] == c
  {
    if s == [] || s[0] == c then "" else [s[0]] + UpTo(s[1..], c)
  }

  /** Reading up to `c` stops exactly at the end of a `c`-free token that is
      followed by `c` or by nothing. */
  lemma {:induction false} UpToStops(token: string, rest: string, c: char)
    requires c !in token
    requires rest == [] || rest[0] == c
    ensures UpTo(token + rest, c) == token
  {
    if token != [] {
      assert (token + rest)[1..] == token[1..] + rest;
      UpToStops(token[1..], rest, c);
    } else {
      assert token + rest == rest;
    }
  }

  // ---------------------------------------------------------------------
  // Reading text back

  /** `s` begins with `p`. */
  predicate StartsWith(s: string, p: string)
  {
    |p| <= |s| && s[..|p|] == p
  }

  /** A string that begins with `p` is `p` followed by the rest. */
  lemma StartsWithSplit(s: string, p: string)
    requires StartsWith(s, p)
    ensures s == p + s[|p|..]
  {
  }

  /** `p + x` begins with `p`, and what follows `p` is `x`. */
  lemma ConcatStartsWith(p: string, x: string)
    ensures StartsWith(p + x, p) && (p + x)[|p|..] == x
  {
  }

  lemma Assoc(a: string, b: string, c: string)
    ensures a + b + c == a + (b + c)
  {
  }

  lemma EmptyConcat(s: string)
    ensures "" + s == s
  {
  }

  /** Six pieces concatenated left to right, regrouped to the right. */
  lemma Nest6(a: string, b: string, c: string, d: string, e: string, f: string)
    ensures a + b + c + d + e + f == a + (b + (c + (d + (e + f))))
  {
    Assoc(a + b + c + d, e, f);
    Assoc(a + b + c, d, e + f);
    Assoc(a + b, c, d + (e + f));
    Assoc(a, b, c + (d + (e + f)));
  }

  /** The loop step: the first `i + 1` fragments are the first `i` and then item `i`'s. */
  lemma ConcatMapTake<T>(f: T -> string, xs: seq<T>, i: nat)
    requires i < |xs|
    ensures ConcatMap(f, xs[..i + 1]) == ConcatMap(f, xs[..i]) + f(xs[i])
  {
    assert xs[..i + 1] == xs[..i] + [xs[i]];
    ConcatMapSnoc(f, xs[..i], xs[i]);
  }

  /** `x` occurs somewhere in `t`. */
  ghost predicate Occurs(t: string, x: string)
  {
    exists p: nat :: OccursAt(t, x, p)
  }

  /** Every item's fragment occurs in the concatenation. */
  lemma ConcatMapOccurs<T>(f: T -> string, xs: seq<T>, k: nat)
    requires k < |xs|
    ensures Occurs(ConcatMap(f, xs), f(xs[k]))
  {
    ConcatMapSplit(f, xs, k);
    var t := ConcatMap(f, xs);
    var p := |ConcatMap(f, xs[..k])|;
    assert t[p..p + |f(xs[k])|] == f(xs[k]);
    assert OccursAt(t, f(xs[k]), p);
  }

  /** Text put after keeps an order. */
  lemma OccursBeforeAppend(u: string, b: string, x: string, y: string)
    requires OccursBefore(u, x, y)
    ensures OccursBefore(u + b, x, y)
  {
    var p: nat, q: nat :| OccursAt(u, x, p) && OccursAt(u, y, q) && p + |x| <= q;
    assert (u + b)[p..p + |x|] == u[p..p + |x|];
    assert (u + b)[q..q + |y|] == u[q..q + |y|];
    assert OccursAt(u + b, x, p) && OccursAt(u + b, y, q);
  }

  /** Text put before keeps an order. */
  lemma OccursBeforePrepend(a: string, u: string, x: string, y: string)
    requires OccursBefore(u, x, y)
    ensures OccursBefore(a + u, x, y)
  {
    var p: nat, q: nat :| OccursAt(u, x, p) && OccursAt(u, y, q) && p + |x| <= q;
    assert (a + u)[|a| + p..|a| + p + |x|] == u[p..p + |x|];
    assert (a + u)[|a| + q..|a| + q + |y|] == u[q..q + |y|];
    assert OccursAt(a + u, x, |a| + p) && OccursAt(a + u, y, |a| + q);
  }

  /** Whatever occurs in the first part occurs before whatever occurs in the second. */
  lemma OccursBeforeAcross(u: string, v: string, x: string, y: string)
    requires Occurs(u, x) && Occurs(v, y)
    ensures OccursBefore(u + v, x, y)
  {
    var p: nat :| OccursAt(u, x, p);
    var q: nat :| OccursAt(v, y, q);
    assert (u + v)[p..p + |x|] == u[p..p + |x|];
    assert (u + v)[|u| + q..|u| + q + |y|] == v[q..q + |y|];
    assert OccursAt(u + v, x, p) && OccursAt(u + v, y, |u| + q);
  }

  /** Text put after keeps an occurrence. */
  lemma OccursAppend(u: string, b: string, x: string)
    requires Occurs(u, x)
    ensures Occurs(u + b, x)
  {
    var p: nat :| OccursAt(u, x, p);
    assert (u + b)[p..p + |x|] == u[p..p + |x|];
    assert OccursAt(u + b, x, p);
  }

  /** Text put before keeps an occurrence. */
  lemma OccursPrepend(a: string, u: string, x: string)
    requires Occurs(u, x)
    ensures Occurs(a + u, x)
  {
    var p: nat :| OccursAt(u, x, p);
    assert (a + u)[|a| + p..|a| + p + |x|] == u[p..p + |x|];
    assert OccursAt(a + u, x, |a| + p);
  }

  /** `Map` keeps the length and maps each element in place. */
  lemma {:induction false} MapAt<T, U>(f: T -> U, xs: seq<T>)
    ensures |Map(f, xs)| == |xs|
    ensures forall k | 0 <= k < |xs| :: Map(f, xs)[k] == f(xs[k])
  {
    if xs != [] {
      MapAt(f, xs[1..]);
      assert Map(f, xs) == [f(xs[0])] + Map(f, xs[1..]);
    }
  }

  lemma {:induction false} MapAppend<T, U>(f: T -> U, xs: seq<T>, ys: seq<T>)
    ensures Map(f, xs + ys) == Map(f, xs) + Map(f, ys)
  {
    if xs == [] {
      assert xs + ys == ys;
    } else {
      assert (xs + ys)[1..] == xs[1..] + ys;
      MapAppend(f, xs[1..], ys);
    }
  }

  /** Mapping twice is mapping once with the composition. */
  lemma {:induction false} MapFuse<T, U, V>(h: T -> V, g: U -> V, f: T -> U, xs: seq<T>)
    requires forall x :: h(x) == g(f(x))
    ensures Map(g, Map(f, xs)) == Map(h, xs)
  {
    if xs != [] {
      assert Map(f, xs) == [f(xs[0])] + Map(f, xs[1..]);
      assert Map(f, xs)[1..] == Map(f, xs[1..]);
      MapFuse(h, g, f, xs[1..]);
    }
  }

  /** Order inside a bare concatenation. */
  lemma ConcatMapInOrder<T>(f: T -> string, xs: seq<T>, i: nat, j: nat)
    requires i < j < |xs|
    ensures OccursBefore(ConcatMap(f, xs), f(xs[i]), f(xs[j]))
  {
    ConcatMapOccursBefore(f, xs, i, j, "", "");
    assert "" + ConcatMap(f, xs) + "" == ConcatMap(f, xs);
  }

  /** The middle of a three-part text is what lies between the first part
      and the last. */
  lemma Middle(a: string, m: string, c: string)
    ensures |a| + |c| <= |a + m + c| && StartsWith(a + m + c, a)
    ensures (a + m + c)[|a + m + c| - |c|..] == c
    ensures (a + m + c)[|a|..|a + m + c| - |c|] == m
  {
  }
}
