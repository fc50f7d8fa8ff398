/** Character-level string operations that the script uses through Python's str methods. */
module Text {

  predicate IsDigit(c: char) { '0' <= c <= '9' }

  predicate AllDigits(s: string) { forall i | 0 <= i < |s| :: IsDigit(s[i]) }

  /** `s.replace(c, t)` for a one-character pattern `c`: every occurrence of `c` becomes `t`,
      every other character is kept, in order. */
  function Replace(s: string, c: char, t: string): (r: string)
    ensures c !in s ==> r == s
    ensures c !in t ==> c !in r
  {
    if s == [] then [] else (if s[0] == c then t else [s[0]]) + Replace(s[1..], c, t)
  }

  lemma ReplaceOne(x: char, c: char, t: string)
    ensures Replace([x], c, t) == if x == c then t else [x]
  {
    assert [x][1..] == [];
  }

  lemma {:induction false} ReplaceAppend(a: string, b: string, c: char, t: string)
    ensures Replace(a + b, c, t) == Replace(a, c, t) + Replace(b, c, t)
  {
    if a == [] {
      assert a + b == b;
    } else {
      var head := if a[0] == c then t else [a[0]];
      assert (a + b)[0] == a[0] && (a + b)[1..] == a[1..] + b;
      ReplaceAppend(a[1..], b, c, t);
      calc {
        Replace(a + b, c, t);
        head + Replace(a[1..] + b, c, t);
        head + (Replace(a[1..], c, t) + Replace(b, c, t));
        (head + Replace(a[1..], c, t)) + Replace(b, c, t);
      }
    }
  }

  /** The string with every occurrence of `c` deleted (`s.replace(c, "")`). */
  function Remove(s: string, c: char): (r: string)
    ensures c !in r
    ensures |r| <= |s|
    ensures c !in s ==> r == s
  {
    if s == [] then [] else (if s[0] == c then [] else [s[0]]) + Remove(s[1..], c)
  }

  lemma {:induction false} RemoveAppend(a: string, b: string, c: char)
    ensures Remove(a + b, c) == Remove(a, c) + Remove(b, c)
  {
    if a == [] {
      assert a + b == b;
    } else {
      var head := if a[0] == c then [] else [a[0]];
      assert (a + b)[0] == a[0] && (a + b)[1..] == a[1..] + b;
      RemoveAppend(a[1..], b, c);
      calc {
        Remove(a + b, c);
        head + Remove(a[1..] + b, c);
        head + (Remove(a[1..], c) + Remove(b, c));
        (head + Remove(a[1..], c)) + Remove(b, c);
      }
    }
  }

  /** Deleting a trailing `c` together with the others. */
  lemma RemoveTrailing(s: string, c: char)
    ensures Remove(s + [c], c) == Remove(s, c)
  {
    assert Remove([c], c) == [] by {
      assert [c][1..] == [];
    }
    RemoveAppend(s, [c], c);
    assert Remove(s, c) + [] == Remove(s, c);
  }

  /** Turning every `c` into `t` and then deleting every `t` deletes every `c`, when `s` held no
      `t` to begin with. */
  lemma {:induction false} RemoveReplaced(s: string, c: char, t: char)
    requires t !in s
    ensures Remove(Replace(s, c, [t]), t) == Remove(s, c)
  {
    if s != [] {
      var head := if s[0] == c then [t] else [s[0]];
      assert Replace(s, c, [t]) == head + Replace(s[1..], c, [t]);
      RemoveAppend(head, Replace(s[1..], c, [t]), t);
      assert Remove(head, t) == if s[0] == c then [] else [s[0]] by {
        assert head[1..] == [];
      }
      RemoveReplaced(s[1..], c, t);
    }
  }

  /** `[f(x) for x in xs]`, grown at the end as the script's loops grow their lists. */
  function Map<A, B>(f: A -> B, xs: seq<A>): (r: seq<B>)
    ensures |r| == |xs|
  {
    if xs == [] then [] else Map(f, xs[..|xs| - 1]) + [f(xs[|xs| - 1])]
  }

  lemma {:induction false} MapAt<A, B>(f: A -> B, xs: seq<A>, i: nat)
    requires i < |xs|
    ensures Map(f, xs)[i] == f(xs[i])
  {
    if i < |xs| - 1 {
      MapAt(f, xs[..|xs| - 1], i);
    }
  }

  /** One more element of `xs` mapped: the step of a loop that builds `Map(f, xs)`. */
  lemma MapPrefix<A, B>(f: A -> B, xs: seq<A>, i: nat)
    requires i < |xs|
    ensures Map(f, xs[..i + 1]) == Map(f, xs[..i]) + [f(xs[i])]
  {
    assert xs[..i + 1][..i] == xs[..i];
  }

  lemma MapFront<A, B>(f: A -> B, xs: seq<A>)
    requires xs != []
    ensures Map(f, xs)[0] == f(xs[0]) && Map(f, xs)[1..] == Map(f, xs[1..])
  {
    var r, t := Map(f, xs), Map(f, xs[1..]);
    forall i | 0 <= i < |t|
      ensures r[i + 1] == t[i]
    {
      MapAt(f, xs, i + 1);
      MapAt(f, xs[1..], i);
    }
    MapAt(f, xs, 0);
  }

  /** Any slice of a digit string is a digit string. */
  lemma DigitsSlice(s: string, i: nat, j: nat)
    requires AllDigits(s) && i <= j <= |s|
    ensures AllDigits(s[i..j])
  {
    assert forall k | 0 <= k < j - i :: s[i..j][k] == s[i + k];
  }

  /** `''.join(parts)`. */
  function Concat(parts: seq<string>): (r: string)
    ensures parts == [] ==> r == ""
  {
    if parts == [] then "" else Concat(parts[..|parts| - 1]) + parts[|parts| - 1]
  }

  lemma {:induction false} ConcatFront(parts: seq<string>)
    requires parts != []
    ensures Concat(parts) == parts[0] + Concat(parts[1..])
  {
    if |parts| > 1 {
      var init := parts[..|parts| - 1];
      assert init[1..] == parts[1..][..|parts[1..]| - 1];
      ConcatFront(init);
    } else {
      assert parts[..0] == [];
    }
  }
}
