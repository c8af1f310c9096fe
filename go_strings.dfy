/** The parts of Go's `strings` package that the converter relies on, over
    `string` (a sequence of characters): `Split` with a one-character
    separator, `Trim` with a one-character cutset, and `Replace` of every
    occurrence of one character by nothing. */
module GoStrings {

  /** `strings.Split(s, string([sep]))`: the fields between the separators.
      There is always at least one field, and none contains the separator. */
  function Split(s: string, sep: char): (r: seq<string>)
    ensures |r| >= 1
    ensures forall i :: 0 <= i < |r| ==> sep !in r[i]
    decreases |s|
  {
    if |s| == 0 then [""]
    else
      var rest := Split(s[1..], sep);
      if s[0] == sep then [""] + rest
      else [[s[0]] + rest[0]] + rest[1..]
  }

  /** The inverse of `Split`: the fields with one separator between each two. */
  function Join(fields: seq<string>, sep: char): string
  {
    if |fields| == 0 then ""
    else if |fields| == 1 then fields[0]
    else fields[0] + [sep] + Join(fields[1..], sep)
  }

  /** Removes every leading `cut`. */
  function TrimLeft(s: string, cut: char): (r: string)
    ensures |r| <= |s| && r == s[|s| - |r|..]
    ensures forall k :: 0 <= k < |s| - |r| ==> s[k] == cut
    ensures r == [] || r[0] != cut
    decreases |s|
  {
    if |s| > 0 && s[0] == cut then TrimLeft(s[1..], cut) else s
  }

  /** Removes every trailing `cut`. */
  function TrimRight(s: string, cut: char): (r: string)
    ensures |r| <= |s| && r == s[..|r|]
    ensures forall k :: |r| <= k < |s| ==> s[k] == cut
    ensures r == [] || r[|r| - 1] != cut
    decreases |s|
  {
    if |s| > 0 && s[|s| - 1] == cut then TrimRight(s[..|s| - 1], cut) else s
  }

  /** `strings.Trim(s, string([cut]))`: removes every leading and trailing `cut`. */
  function Trim(s: string, cut: char): (r: string)
    ensures |r| <= |s|
    ensures r == [] || (r[0] != cut && r[|r| - 1] != cut)
  {
    TrimRight(TrimLeft(s, cut), cut)
  }

  /** `strings.Replace(s, string([c]), "", -1)`: deletes every `c`, keeping the
      other characters. */
  function RemoveAll(s: string, c: char): (r: string)
    ensures c !in r
    ensures forall x :: x in r <==> x in s && x != c
    decreases |s|
  {
    if |s| == 0 then ""
    else
      assert forall x :: x in s <==> x == s[0] || x in s[1..];
      (if s[0] == c then "" else [s[0]]) + RemoveAll(s[1..], c)
  }

  predicate AllAre(s: string, c: char)
  {
    forall k :: 0 <= k < |s| ==> s[k] == c
  }

  // ---------------------------------------------------------------------
  // Split and Join

  /** Joining the fields of a split gives back the original string. */
  lemma {:induction false} JoinSplit(s: string, sep: char)
    ensures Join(Split(s, sep), sep) == s
    decreases |s|
  {
    if |s| > 0 {
      var rest := Split(s[1..], sep);
      JoinSplit(s[1..], sep);
      if s[0] == sep {
        assert Split(s, sep) == [""] + rest;
        assert ([""] + rest)[1..] == rest;
        assert Join(Split(s, sep), sep) == "" + [sep] + s[1..];
      } else {
        var first := [s[0]] + rest[0];
        assert Split(s, sep) == [first] + rest[1..];
        if |rest| > 1 {
          assert Join(rest, sep) == rest[0] + [sep] + Join(rest[1..], sep);
          assert ([first] + rest[1..])[1..] == rest[1..];
          assert Join(Split(s, sep), sep) == first + [sep] + Join(rest[1..], sep);
        }
      }
      assert [s[0]] + s[1..] == s;
    }
  }

  /** A string with `n` separators has `n + 1` fields. */
  lemma {:induction false} SplitCount(s: string, sep: char)
    ensures |Split(s, sep)| == multiset(s)[sep] + 1
    decreases |s|
  {
    if |s| > 0 {
      SplitCount(s[1..], sep);
      assert s == [s[0]] + s[1..];
      assert multiset(s) == multiset{s[0]} + multiset(s[1..]);
    }
  }

  /** One unfolding of `Split`, for a string given as its first character
      and the rest. */
  lemma SplitCons(c: char, t: string, sep: char)
    ensures Split([c] + t, sep) ==
              if c == sep then [""] + Split(t, sep)
              else [[c] + Split(t, sep)[0]] + Split(t, sep)[1..]
  {
    assert ([c] + t)[0] == c && ([c] + t)[1..] == t;
  }

  lemma ConsAppend(h: string, ra: seq<string>, rest: seq<string>)
    requires |ra| >= 1
    ensures [h + (ra + rest)[0]] + (ra + rest)[1..] == ([h + ra[0]] + ra[1..]) + rest
  {
    assert (ra + rest)[0] == ra[0] && (ra + rest)[1..] == ra[1..] + rest;
  }

  /** Putting a character in front of a string whose fields are those of
      `a` followed by `rest`: the fields are those of `c` and `a`, then `rest`. */
  lemma SplitConsAppend(c: char, x: string, a: string, rest: seq<string>, sep: char)
    requires Split(x, sep) == Split(a, sep) + rest
    ensures Split([c] + x, sep) == Split([c] + a, sep) + rest
  {
    var ra := Split(a, sep);
    if c != sep {
      calc {
        Split([c] + x, sep);
        { SplitCons(c, x, sep); }
        [[c] + (ra + rest)[0]] + (ra + rest)[1..];
        { ConsAppend([c], ra, rest); }
        ([[c] + ra[0]] + ra[1..]) + rest;
        { SplitCons(c, a, sep); }
        Split([c] + a, sep) + rest;
      }
    } else {
      calc {
        Split([c] + x, sep);
        { SplitCons(c, x, sep); }
        [""] + (ra + rest);
        ([""] + ra) + rest;
        { SplitCons(c, a, sep); }
        Split([c] + a, sep) + rest;
      }
    }
  }

  /** Splitting `a + sep + b` splits `a` and `b` independently: the fields
      of a prefix do not depend on what follows the next separator. */
  lemma {:induction false} SplitAppend(a: string, b: string, sep: char)
    ensures Split(a + [sep] + b, sep) == Split(a, sep) + Split(b, sep)
    decreases |a|
  {
    if |a| == 0 {
      assert a + [sep] + b == [sep] + b;
      SplitCons(sep, b, sep);
    } else {
      SplitAppend(a[1..], b, sep);
      SplitConsAppend(a[0], a[1..] + [sep] + b, a[1..], Split(b, sep), sep);
      assert [a[0]] + (a[1..] + [sep] + b) == a + [sep] + b;
      assert [a[0]] + a[1..] == a;
    }
  }

  /** A string without the separator is a single field. */
  lemma {:induction false} SplitNoSeparator(s: string, sep: char)
    requires sep !in s
    ensures Split(s, sep) == [s]
    decreases |s|
  {
    if |s| > 0 {
      assert s[0] != sep;
      assert sep !in s[1..];
      SplitNoSeparator(s[1..], sep);
      assert [s[0]] + s[1..] == s;
    }
  }

  /** Splitting undoes joining fields that do not contain the separator. */
  lemma {:induction false} SplitJoin(fields: seq<string>, sep: char)
    requires |fields| >= 1
    requires forall i :: 0 <= i < |fields| ==> sep !in fields[i]
    ensures Split(Join(fields, sep), sep) == fields
    decreases |fields|
  {
    if |fields| == 1 {
      SplitNoSeparator(fields[0], sep);
    } else {
      assert sep !in fields[0];
      SplitJoin(fields[1..], sep);
      SplitAppend(fields[0], Join(fields[1..], sep), sep);
      SplitNoSeparator(fields[0], sep);
      assert [fields[0]] + fields[1..] == fields;
    }
  }

  // ---------------------------------------------------------------------
  // Trim

  lemma {:induction false} TrimLeftSkips(pre: string, rest: string, cut: char)
    requires AllAre(pre, cut)
    requires rest == [] || rest[0] != cut
    ensures TrimLeft(pre + rest, cut) == rest
    decreases |pre|
  {
    if |pre| > 0 {
      assert (pre + rest)[1..] == pre[1..] + rest;
      TrimLeftSkips(pre[1..], rest, cut);
    }
  }

  lemma {:induction false} TrimRightSkips(rest: string, post: string, cut: char)
    requires AllAre(post, cut)
    requires rest == [] || rest[|rest| - 1] != cut
    ensures TrimRight(rest + post, cut) == rest
    decreases |post|
  {
    if |post| > 0 {
      var p := post[..|post| - 1];
      assert (rest + post)[..|rest + post| - 1] == rest + p;
      TrimRightSkips(rest, p, cut);
    }
  }

  /** `Trim` removes exactly the runs of `cut` around a core that neither
      starts nor ends with `cut`, and nothing inside it. */
  lemma TrimExact(pre: string, mid: string, post: string, cut: char)
    requires AllAre(pre, cut) && AllAre(post, cut)
    requires mid == [] || (mid[0] != cut && mid[|mid| - 1] != cut)
    ensures Trim(pre + mid + post, cut) == mid
  {
    if mid == [] {
      assert pre + mid + post == pre + post + [];
      TrimLeftSkips(pre + post, [], cut);
    } else {
      assert pre + mid + post == pre + (mid + post);
      TrimLeftSkips(pre, mid + post, cut);
      TrimRightSkips(mid, post, cut);
    }
  }

  // ---------------------------------------------------------------------
  // RemoveAll

  /** Deleting a character distributes over concatenation, so the characters
      that stay keep their order. */
  lemma {:induction false} RemoveAllConcat(a: string, b: string, c: char)
    ensures RemoveAll(a + b, c) == RemoveAll(a, c) + RemoveAll(b, c)
    decreases |a|
  {
    if |a| > 0 {
      var head := if a[0] == c then "" else [a[0]];
      assert (a + b)[0] == a[0];
      assert (a + b)[1..] == a[1..] + b;
      RemoveAllConcat(a[1..], b, c);
      assert RemoveAll(a + b, c) == head + (RemoveAll(a[1..], c) + RemoveAll(b, c));
      assert RemoveAll(a, c) == head + RemoveAll(a[1..], c);
    } else {
      assert a + b == b;
    }
  }

  /** A string without the character is left as it is. */
  lemma {:induction false} RemoveAllAbsent(s: string, c: char)
    requires c !in s
    ensures RemoveAll(s, c) == s
    decreases |s|
  {
    if |s| > 0 {
      assert c !in s[1..];
      RemoveAllAbsent(s[1..], c);
      assert [s[0]] + s[1..] == s;
    }
  }
}
