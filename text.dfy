/** The string operations of Go's standard library that the configuration resolver and
    the identifier sanitiser rely on, restricted to what those callers need. */
module Text {

  predicate IsUpper(c: char) { 'A' <= c <= 'Z' }

  predicate IsLowerAlpha(c: char) { 'a' <= c <= 'z' }

  /** Every character of `s` is one of `a`..`z`. */
  predicate AllLowerAlpha(s: string) {
    forall i :: 0 <= i < |s| ==> IsLowerAlpha(s[i])
  }

  /** ASCII lower-casing of one character (the part of `unicode.ToLower` the model covers). */
  function LowerChar(c: char): (d: char)
    ensures !IsUpper(d)
    ensures IsUpper(c) ==> d as int == c as int + 32
    ensures !IsUpper(c) ==> d == c
  {
    if IsUpper(c) then (c as int + 32) as char else c
  }

  /** `strings.ToLower`, on ASCII letters. */
  function ToLower(s: string): (r: string)
    ensures |r| == |s|
    ensures forall i :: 0 <= i < |s| ==> r[i] == LowerChar(s[i])
  {
    seq(|s|, i requires 0 <= i < |s| => LowerChar(s[i]))
  }

  /** Lower-casing twice is lower-casing once: names that agree after one
      lower-casing name the same cache slot however often they are lower-cased. */
  lemma ToLowerIdempotent(s: string)
    ensures ToLower(ToLower(s)) == ToLower(s)
  {
  }

  /** A string of `a`..`z` letters is its own lower-case form. */
  lemma ToLowerOfLowerAlpha(s: string)
    requires AllLowerAlpha(s)
    ensures ToLower(s) == s
  {
  }

  /** Number of occurrences of `c` in `s`. */
  function Count(s: string, c: char): (n: nat)
    ensures n <= |s|
    ensures n == 0 <==> c !in s
  {
    if s == [] then 0
    else (if s[0] == c then 1 else 0) + Count(s[1..], c)
  }

  /** `strings.Split(s, string(sep))`: the pieces of `s` between occurrences of `sep`.
      Like Go, the empty string splits into one empty piece, and no piece holds `sep`. */
  function Split(s: string, sep: char): (tokens: seq<string>)
    ensures |tokens| >= 1
    ensures forall i :: 0 <= i < |tokens| ==> sep !in tokens[i]
    decreases |s|
  {
    if s == [] then [""]
    else
      var rest := Split(s[1..], sep);
      if s[0] == sep then [""] + rest
      else [[s[0]] + rest[0]] + rest[1..]
  }

  /** `strings.Join(tokens, string(sep))` for a non-empty list of pieces. */
  function Join(tokens: seq<string>, sep: char): (s: string)
    requires |tokens| >= 1
    decreases |tokens|
  {
    if |tokens| == 1 then tokens[0]
    else tokens[0] + [sep] + Join(tokens[1..], sep)
  }

  /** Splitting yields one more piece than there are separators. */
  lemma {:induction false} SplitLength(s: string, sep: char)
    ensures |Split(s, sep)| == Count(s, sep) + 1
    decreases |s|
  {
    if s != [] {
      SplitLength(s[1..], sep);
    }
  }

  /** Joining the pieces with the separator gives back the string. */
  lemma {:induction false} JoinSplit(s: string, sep: char)
    ensures Join(Split(s, sep), sep) == s
    decreases |s|
  {
    if s != [] {
      JoinSplit(s[1..], sep);
      var rest := Split(s[1..], sep);
      if s[0] == sep {
        assert Split(s, sep)[1..] == rest;
        assert s == [sep] + s[1..];
      } else if |rest| == 1 {
        assert s == [s[0]] + s[1..];
      } else {
        assert Split(s, sep)[1..] == rest[1..];
        assert Join(rest, sep) == rest[0] + [sep] + Join(rest[1..], sep);
        assert s == [s[0]] + s[1..];
      }
    }
  }

  /** A prefix free of the separator becomes the front of the first piece. */
  lemma {:induction false} SplitPrefix(a: string, s: string, sep: char)
    requires sep !in a
    ensures Split(a + s, sep) == [a + Split(s, sep)[0]] + Split(s, sep)[1..]
    decreases |a|
  {
    if a == [] {
      var t := Split(s, sep);
      assert a + s == s;
      assert a + t[0] == t[0];
      assert t == [t[0]] + t[1..];
    } else {
      assert (a + s)[1..] == a[1..] + s;
      assert sep !in a[1..];
      SplitPrefix(a[1..], s, sep);
      var rest := Split(a[1..] + s, sep);
      assert Split(a + s, sep) == [[a[0]] + rest[0]] + rest[1..];
      assert rest[0] == a[1..] + Split(s, sep)[0];
      assert rest[1..] == Split(s, sep)[1..];
      assert [a[0]] + (a[1..] + Split(s, sep)[0]) == a + Split(s, sep)[0];
    }
  }

  /** Splitting pieces that are free of the separator, once joined, gives them back. */
  lemma {:induction false} SplitJoin(tokens: seq<string>, sep: char)
    requires |tokens| >= 1
    requires forall i :: 0 <= i < |tokens| ==> sep !in tokens[i]
    ensures Split(Join(tokens, sep), sep) == tokens
    decreases |tokens|
  {
    if |tokens| == 1 {
      SplitPrefix(tokens[0], "", sep);
      assert tokens[0] + "" == tokens[0];
    } else {
      var j := Join(tokens[1..], sep);
      SplitJoin(tokens[1..], sep);
      SplitPrefix(tokens[0], [sep] + j, sep);
      assert tokens[0] + [sep] + j == tokens[0] + ([sep] + j);
      assert Split([sep] + j, sep) == [""] + Split(j, sep);
      assert tokens[0] + "" == tokens[0];
      assert tokens == [tokens[0]] + tokens[1..];
    }
  }

  /** `key=value` with neither part holding `=` splits into exactly those two parts. */
  lemma SplitPair(key: string, value: string, sep: char)
    requires sep !in key && sep !in value
    ensures Split(key + [sep] + value, sep) == [key, value]
  {
    assert Join([key, value], sep) == key + [sep] + value;
    SplitJoin([key, value], sep);
  }

  /** The string left after Go's `regexp.MustCompile("[^a-z]*").ReplaceAllString(s, "")`:
      the `a`..`z` characters of `s`, in order. */
  function KeepLowerAlpha(s: string): (r: string)
    ensures |r| <= |s|
    ensures AllLowerAlpha(r)
  {
    if s == [] then ""
    else if IsLowerAlpha(s[0]) then [s[0]] + KeepLowerAlpha(s[1..])
    else KeepLowerAlpha(s[1..])
  }

  /** A string of `a`..`z` letters holds no other character. */
  lemma LowerAlphaExcludes(s: string, c: char)
    requires AllLowerAlpha(s) && !IsLowerAlpha(c)
    ensures c !in s
  {
  }

  /** Filtering keeps every `a`..`z` character as often as it occurs and drops all others. */
  lemma {:induction false} KeepLowerAlphaCount(s: string, c: char)
    ensures Count(KeepLowerAlpha(s), c) == if IsLowerAlpha(c) then Count(s, c) else 0
  {
    if s != [] {
      KeepLowerAlphaCount(s[1..], c);
      if IsLowerAlpha(s[0]) {
        assert ([s[0]] + KeepLowerAlpha(s[1..]))[1..] == KeepLowerAlpha(s[1..]);
      }
    }
  }

  /** Filtering respects concatenation, so the kept characters stay in their original order. */
  lemma {:induction false} KeepLowerAlphaAppend(a: string, b: string)
    ensures KeepLowerAlpha(a + b) == KeepLowerAlpha(a) + KeepLowerAlpha(b)
  {
    if a == [] {
      assert a + b == b;
    } else {
      assert (a + b)[1..] == a[1..] + b;
      KeepLowerAlphaAppend(a[1..], b);
    }
  }

  /** Filtering changes a string exactly when it holds a character outside `a`..`z`. */
  lemma {:induction false} KeepLowerAlphaFixed(s: string)
    ensures KeepLowerAlpha(s) == s <==> AllLowerAlpha(s)
  {
    if s != [] {
      KeepLowerAlphaFixed(s[1..]);
      if !IsLowerAlpha(s[0]) {
        assert |KeepLowerAlpha(s)| < |s|;
      }
    }
  }
}
