/** String helpers the Python code gets from `str` and its builtins:
    `rstrip`/`strip`, `startswith(prefix, start)`, `endswith`, base-10 `int()`,
    code-point string ordering and `sorted()` over a set of names. */
module Text {
  import opened Results

  /** The whitespace `str.strip()` removes: the characters `str.isspace()` accepts.
      Those are `\t` to `\r`, the separators `\x1c` to `\x1f`, the space, `\x85`,
      `\xa0` and the Unicode space, line and paragraph separators. */
  predicate IsSpace(c: char) {
    ('\U{0009}' <= c <= '\U{000D}') || ('\U{001C}' <= c <= '\U{0020}') ||
    c == '\U{0085}' || c == '\U{00A0}' || c == '\U{1680}' ||
    ('\U{2000}' <= c <= '\U{200A}') || c == '\U{2028}' || c == '\U{2029}' ||
    c == '\U{202F}' || c == '\U{205F}' || c == '\U{3000}'
  }

  /** `s.rstrip()`: the longest prefix of `s` that does not end in whitespace. */
  function RStrip(s: string): (r: string)
    ensures r <= s
    ensures |r| == 0 || !IsSpace(r[|r| - 1])
    ensures forall i :: |r| <= i < |s| ==> IsSpace(s[i])
  {
    if |s| > 0 && IsSpace(s[|s| - 1]) then RStrip(s[..|s| - 1]) else s
  }

  /** `s.lstrip()`: `s` without its leading whitespace. */
  function LStrip(s: string): (r: string)
    ensures |r| <= |s| && r == s[|s| - |r|..]
    ensures |r| == 0 || !IsSpace(r[0])
    ensures forall i :: 0 <= i < |s| - |r| ==> IsSpace(s[i])
  {
    if |s| > 0 && IsSpace(s[0]) then LStrip(s[1..]) else s
  }

  /** `s.strip()`. */
  function Strip(s: string): string {
    LStrip(RStrip(s))
  }

  lemma RStripIdempotent(s: string)
    ensures RStrip(RStrip(s)) == RStrip(s)
  {
  }

  /** `s.startswith(prefix, start)`. */
  predicate StartsWithAt(s: string, prefix: string, start: nat) {
    start + |prefix| <= |s| && s[start..start + |prefix|] == prefix
  }

  /** `token.endswith(":")`. */
  predicate EndsWithColon(token: string) {
    |token| > 0 && token[|token| - 1] == ':'
  }

  predicate IsDigit(c: char) {
    '0' <= c <= '9'
  }

  predicate AllDigits(s: string) {
    forall i :: 0 <= i < |s| ==> IsDigit(s[i])
  }

  /** The value of a run of decimal digits, most significant first. */
  function DigitsValue(s: string): nat
    requires AllDigits(s)
  {
    if |s| == 0 then 0 else 10 * DigitsValue(s[..|s| - 1]) + (s[|s| - 1] as int - '0' as int)
  }

  /** The literals `int(raw, 10)` accepts in this model: an optional `+` or `-`
      followed by at least one decimal digit. */
  predicate IsIntLiteral(raw: string) {
    if |raw| > 0 && (raw[0] == '-' || raw[0] == '+') then |raw| > 1 && AllDigits(raw[1..])
    else |raw| > 0 && AllDigits(raw)
  }

  /** `int(raw, 10)`: `None` stands for the `ValueError` it raises. */
  function ParseInt(raw: string): (r: Option<int>)
    ensures r.Some? <==> IsIntLiteral(raw)
  {
    if |raw| > 0 && (raw[0] == '-' || raw[0] == '+') then
      if |raw| > 1 && AllDigits(raw[1..]) then
        var magnitude: int := DigitsValue(raw[1..]);
        Some(if raw[0] == '-' then -magnitude else magnitude)
      else None
    else if |raw| > 0 && AllDigits(raw) then Some(DigitsValue(raw))
    else None
  }

  function DigitChar(d: nat): char
    requires d < 10
  {
    ('0' as int + d) as char
  }

  /** `str(n)` for a natural number. */
  function ShowNat(n: nat): (s: string)
    ensures |s| > 0 && AllDigits(s)
  {
    if n < 10 then [DigitChar(n)] else ShowNat(n / 10) + [DigitChar(n % 10)]
  }

  /** `str(n)`: the decimal text Python prints for an integer. */
  function ShowInt(n: int): string {
    if n < 0 then "-" + ShowNat(-n) else ShowNat(n)
  }

  lemma {:induction false} ShowNatValue(n: nat)
    ensures DigitsValue(ShowNat(n)) == n
  {
    if n >= 10 {
      ShowNatValue(n / 10);
      var s := ShowNat(n);
      assert s[..|s| - 1] == ShowNat(n / 10);
    }
  }

  /** Printing an integer and reading it back with `int(_, 10)` gives the integer. */
  lemma ParseShowInt(n: int)
    ensures ParseInt(ShowInt(n)) == Some(n)
  {
    if n < 0 {
      ShowNatValue(-n);
      assert ShowInt(n)[1..] == ShowNat(-n);
    } else {
      ShowNatValue(n);
    }
  }

  // ----- code-point ordering of strings, as Python's `<` on `str` -----

  /** `a < b` on Python strings: lexicographic by code point, a proper prefix first. */
  predicate LexLess(a: string, b: string)
    decreases |a|
  {
    |b| > 0 && (|a| == 0 || a[0] < b[0] || (a[0] == b[0] && LexLess(a[1..], b[1..])))
  }

  lemma {:induction false} LexIrreflexive(a: string)
    ensures !LexLess(a, a)
    decreases |a|
  {
    if |a| > 0 {
      LexIrreflexive(a[1..]);
    }
  }

  lemma {:induction false} LexTransitive(a: string, b: string, c: string)
    requires LexLess(a, b) && LexLess(b, c)
    ensures LexLess(a, c)
    decreases |a|
  {
    if |a| > 0 && a[0] == b[0] && b[0] == c[0] {
      LexTransitive(a[1..], b[1..], c[1..]);
    }
  }

  lemma {:induction false} LexTotal(a: string, b: string)
    requires a != b
    ensures LexLess(a, b) || LexLess(b, a)
    decreases |a|
  {
    if |a| > 0 && |b| > 0 && a[0] == b[0] {
      assert a == [a[0]] + a[1..] && b == [b[0]] + b[1..];
      LexTotal(a[1..], b[1..]);
    }
  }

  /** No name occurs twice in `q`. */
  predicate Distinct(q: seq<string>) {
    forall i, j :: 0 <= i < j < |q| ==> q[i] != q[j]
  }

  /** `[x] + rest` has no repetition exactly when `rest` has none and lacks `x`. */
  lemma DistinctCons(x: string, rest: seq<string>)
    ensures Distinct([x] + rest) <==> Distinct(rest) && x !in rest
  {
    var q := [x] + rest;
    assert q[0] == x && forall k :: 0 <= k < |rest| ==> q[k + 1] == rest[k];
    if Distinct(rest) && x !in rest {
      forall a, b | 0 <= a < b < |q| ensures q[a] != q[b] {
        if a == 0 {
          assert q[b] == rest[b - 1];
        } else {
          assert q[a] == rest[a - 1] && q[b] == rest[b - 1];
        }
      }
    }
  }
  /** Two sequences without repetition and without a common name concatenate to one
      without repetition. */
  lemma DistinctAppend(a: seq<string>, b: seq<string>)
    requires Distinct(a) && Distinct(b) && forall x :: x in a ==> x !in b
    ensures Distinct(a + b)
  {
    var q := a + b;
    forall i, j | 0 <= i < j < |q| ensures q[i] != q[j] {
      if j < |a| {
        assert q[i] == a[i] && q[j] == a[j];
      } else if i >= |a| {
        assert q[i] == b[i - |a|] && q[j] == b[j - |a|];
      } else {
        assert q[i] == a[i] && q[j] == b[j - |a|];
        assert a[i] in a;
      }
    }
  }

  predicate StrictlySorted(q: seq<string>) {
    forall i, j :: 0 <= i < j < |q| ==> LexLess(q[i], q[j])
  }

  function Elements(q: seq<string>): set<string> {
    set x | x in q
  }

  /** Inserting a new name into a sorted list keeps it sorted and adds exactly that name. */
  function Insert(q: seq<string>, x: string): (r: seq<string>)
    requires StrictlySorted(q) && x !in q
    ensures StrictlySorted(r) && Elements(r) == Elements(q) + {x} && |r| == |q| + 1
  {
    if |q| == 0 then [x]
    else if LexLess(x, q[0]) then
      InsertFront(q, x)
    else
      LexTotal(x, q[0]);
      var rest := Insert(q[1..], x);
      assert Elements(q) == {q[0]} + Elements(q[1..]);
      assert forall k :: 0 <= k < |rest| ==> LexLess(q[0], rest[k]) by {
        forall k | 0 <= k < |rest| ensures LexLess(q[0], rest[k]) {
          assert rest[k] in Elements(rest);
        }
      }
      [q[0]] + rest
  }

  function InsertFront(q: seq<string>, x: string): (r: seq<string>)
    requires StrictlySorted(q) && |q| > 0 && LexLess(x, q[0])
    ensures r == [x] + q && StrictlySorted(r) && Elements(r) == Elements(q) + {x}
  {
    assert forall k :: 0 <= k < |q| ==> LexLess(x, q[k]) by {
      forall k | 0 < k < |q| ensures LexLess(x, q[k]) {
        LexTransitive(x, q[0], q[k]);
      }
    }
    [x] + q
  }

  lemma {:induction false} SortedExists(s: set<string>)
    ensures exists q :: StrictlySorted(q) && Elements(q) == s
    decreases |s|
  {
    if s == {} {
      assert StrictlySorted([]) && Elements([]) == s;
    } else {
      var x :| x in s;
      SortedExists(s - {x});
      var q :| StrictlySorted(q) && Elements(q) == s - {x};
      var r := Insert(q, x);
      assert Elements(r) == s;
    }
  }

  /** `sorted(s)` for a set of strings: the one strictly increasing list of its elements. */
  ghost function SortedOf(s: set<string>): (q: seq<string>)
    ensures StrictlySorted(q) && Elements(q) == s
  {
    SortedExists(s);
    var q :| StrictlySorted(q) && Elements(q) == s;
    q
  }

  /** Two strictly increasing lists with the same elements are the same list,
      so `sorted()` of a set does not depend on how the set was built. */
  lemma {:induction false} SortedUnique(p: seq<string>, q: seq<string>)
    requires StrictlySorted(p) && StrictlySorted(q) && Elements(p) == Elements(q)
    ensures p == q
    decreases |p|
  {
    assert |p| > 0 ==> p[0] in Elements(p);
    assert |q| > 0 ==> q[0] in Elements(q);
    if |p| > 0 && |q| > 0 {
      assert p[0] in Elements(q) && q[0] in Elements(p);
      if p[0] != q[0] {
        var i :| 0 <= i < |q| && q[i] == p[0];
        var j :| 0 <= j < |p| && p[j] == q[0];
        LexIrreflexive(p[0]);
        if i > 0 && j > 0 {
          LexTransitive(p[0], q[0], p[0]);
        }
      }
      forall y | y in Elements(p[1..]) ensures y in Elements(q[1..]) {
        var k :| 1 <= k < |p| && p[k] == y;
        assert y != p[0] by { LexIrreflexive(y); }
        assert y in Elements(q);
      }
      forall y | y in Elements(q[1..]) ensures y in Elements(p[1..]) {
        var k :| 1 <= k < |q| && q[k] == y;
        assert y != q[0] by { LexIrreflexive(y); }
        assert y in Elements(p);
      }
      SortedUnique(p[1..], q[1..]);
      assert p == [p[0]] + p[1..] && q == [q[0]] + q[1..];
    }
  }

  /** `sorted(s)`, computed by inserting the elements one at a time. */
  method SortStrings(s: set<string>) returns (q: seq<string>)
    ensures q == SortedOf(s)
  {
    q := [];
    var rest := s;
    while rest != {}
      invariant StrictlySorted(q) && Elements(q) == s - rest && rest <= s
      decreases rest
    {
      var x :| x in rest;
      q := Insert(q, x);
      rest := rest - {x};
    }
    SortedUnique(q, SortedOf(s));
  }

  /** `sep.join(parts)`. */
  function Join(sep: string, parts: seq<string>): string {
    if |parts| == 0 then "" else if |parts| == 1 then parts[0] else parts[0] + sep + Join(sep, parts[1..])
  }

  /** `str(xs)` for a list of integers: `[1, 2, 3]`. */
  function ListRepr(xs: seq<int>): string {
    "[" + Join(", ", seq(|xs|, i requires 0 <= i < |xs| => ShowInt(xs[i]))) + "]"
  }
}
