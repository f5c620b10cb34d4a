/** The `path` column as the text it really is: 36-character ids joined by slashes. The cycle check and the
    prefix rewrite work on this text; on sequences of ids they mean what the other modules say. */
module PathText {
  import opened Prelude
  import opened FolderTable
  import opened FolderCascades

  predicate IsUuid(s: string) {
    |s| == 36 && '/' !in s
  }

  /** `f` prints the given ids, each as a text of its own. */
  ghost predicate Printer(f: Id -> string, ids: set<Id>) {
    && (forall x :: x in ids ==> IsUuid(f(x)))
    && (forall x, y :: x in ids && y in ids && f(x) == f(y) ==> x == y)
  }

  /** The text built by `f"{parent.path}/{id}"` on the way down. */
  function Text(f: Id -> string, path: seq<Id>): string {
    if path == [] then ""
    else if |path| == 1 then f(path[0])
    else Text(f, path[..|path| - 1]) + "/" + f(path[|path| - 1])
  }

  /** `check_cycle` on text. */
  predicate TextCycle(target: string, source: string) {
    target == source || source + "/" <= target
  }

  /** `regexp_replace(path, '^old', new)`: ids and slashes contain no character special to the pattern. */
  function TextReplace(path: string, oldText: string, newText: string): string {
    if oldText <= path then newText + path[|oldText|..] else path
  }

  lemma {:induction false} TextLength(f: Id -> string, p: seq<Id>)
    requires Printer(f, Elems(p)) && p != []
    ensures |Text(f, p)| == 37 * |p| - 1
    decreases |p|
  {
    if |p| > 1 { TextLength(f, p[..|p| - 1]); }
  }

  /** The id at position `i` occupies a fixed slot of the text. */
  lemma {:induction false} Slot(f: Id -> string, p: seq<Id>, i: nat)
    requires Printer(f, Elems(p)) && i < |p|
    ensures 37 * i + 36 <= |Text(f, p)| && Text(f, p)[37 * i..37 * i + 36] == f(p[i])
    decreases |p|
  {
    TextLength(f, p);
    if |p| > 1 {
      var init := p[..|p| - 1];
      TextLength(f, init);
      if i < |p| - 1 {
        Slot(f, init, i);
        assert Text(f, p)[37 * i..37 * i + 36] == Text(f, init)[37 * i..37 * i + 36];
      } else {
        assert Text(f, p) == Text(f, init) + "/" + f(p[i]);
        assert Text(f, p)[37 * i..37 * i + 36] == f(p[i]);
      }
    } else {
      assert f(p[0])[0..36] == f(p[0]);
    }
  }

  lemma Regroup(a: string, b: string, c: string)
    ensures a + "/" + b + "/" + c == a + "/" + (b + "/" + c)
  {
    var slash := "/";
    assert a + slash + b + slash + c == a + slash + (b + slash + c);
  }

  lemma TextSnoc(f: Id -> string, p: seq<Id>, x: Id)
    requires p != []
    ensures Text(f, p + [x]) == Text(f, p) + "/" + f(x)
  {
    assert (p + [x])[..|p|] == p;
  }

  lemma {:induction false} TextConcat(f: Id -> string, a: seq<Id>, b: seq<Id>)
    requires a != [] && b != []
    ensures Text(f, a + b) == Text(f, a) + "/" + Text(f, b)
    decreases |b|
  {
    var last := b[|b| - 1];
    if |b| == 1 {
      TextSnoc(f, a, last);
      assert b == [last];
    } else {
      var init := b[..|b| - 1];
      TextConcat(f, a, init);
      TextSnoc(f, a + init, last);
      TextSnoc(f, init, last);
      Regroup(Text(f, a), Text(f, init), f(last));
      assert b == init + [last] && a + b == a + init + [last];
    }
  }

  lemma SameSlot(f: Id -> string, p: seq<Id>, q: seq<Id>, i: nat)
    requires Printer(f, Elems(p) + Elems(q)) && i < |q| <= |p| && Text(f, q) <= Text(f, p)
    ensures q[i] == p[i]
  {
    Slot(f, q, i);
    Slot(f, p, i);
    assert Text(f, q)[37 * i..37 * i + 36] == Text(f, p)[37 * i..37 * i + 36];
    assert q[i] in Elems(q) && p[i] in Elems(p);
  }

  /** Prefixes of the text that end where an id ends are texts of prefixes. */
  lemma TextPrefixIff(f: Id -> string, p: seq<Id>, q: seq<Id>)
    requires Printer(f, Elems(p) + Elems(q)) && p != [] && q != []
    ensures Text(f, q) <= Text(f, p) <==> q <= p
  {
    TextLength(f, p);
    TextLength(f, q);
    if Text(f, q) <= Text(f, p) {
      forall i | 0 <= i < |q| ensures q[i] == p[i] { SameSlot(f, p, q, i); }
    }
    if q <= p {
      if |q| == |p| { assert p == q; } else {
        assert p == q + p[|q|..];
        TextConcat(f, q, p[|q|..]);
      }
    }
  }

  lemma TextInjective(f: Id -> string, p: seq<Id>, q: seq<Id>)
    requires Printer(f, Elems(p) + Elems(q)) && p != [] && q != [] && Text(f, p) == Text(f, q)
    ensures p == q
  {
    TextPrefixIff(f, p, q);
    TextPrefixIff(f, q, p);
  }

  /** The cycle check on the stored text is the check on id sequences. */
  lemma TextCycleIff(f: Id -> string, target: seq<Id>, source: seq<Id>)
    requires Printer(f, Elems(target) + Elems(source)) && target != [] && source != []
    ensures TextCycle(Text(f, target), Text(f, source)) <==> CheckCycle(target, source)
  {
    var t, s := Text(f, target), Text(f, source);
    TextLength(f, target);
    TextLength(f, source);
    TextPrefixIff(f, target, source);
    if t == s { TextInjective(f, target, source); }
    if s + "/" <= t { assert s == (s + "/")[..|s|] == t[..|s|]; }
    if source < target {
      assert target == source + target[|source|..];
      TextConcat(f, source, target[|source|..]);
    }
  }

  /** The prefix rewrite on the stored text is the rewrite on id sequences. */
  lemma TextReplaceIsRewrite(f: Id -> string, p: seq<Id>, oldPrefix: seq<Id>, newPrefix: seq<Id>)
    requires Printer(f, Elems(p) + Elems(oldPrefix)) && p != [] && oldPrefix != [] && newPrefix != []
    ensures TextReplace(Text(f, p), Text(f, oldPrefix), Text(f, newPrefix)) == Text(f, Rewrite(p, oldPrefix, newPrefix))
  {
    TextPrefixIff(f, p, oldPrefix);
    if oldPrefix <= p {
      var rest := p[|oldPrefix|..];
      assert p == oldPrefix + rest;
      if rest == [] {
        assert p == oldPrefix && newPrefix + rest == newPrefix;
      } else {
        TextConcat(f, oldPrefix, rest);
        TextConcat(f, newPrefix, rest);
        SwapHead(Text(f, oldPrefix), Text(f, newPrefix), Text(f, rest));
      }
    }
  }

  lemma SwapHead(a: string, b: string, rest: string)
    ensures TextReplace(a + "/" + rest, a, b) == b + "/" + rest
  {
    var path, tail := a + "/" + rest, "/" + rest;
    assert path == a + tail && path[|a|..] == tail;
    assert b + tail == b + "/" + rest;
  }

  // ---------------------------------------------------------------- the printer in use

  const HEX := "0123456789abcdef"

  function Pow16(k: nat): nat {
    if k == 0 then 1 else 16 * Pow16(k - 1)
  }

  /** The last `k` hexadecimal digits of `n`. */
  function Hex(n: nat, k: nat): (s: string)
    ensures |s| == k && forall c :: c in s ==> c in HEX
  {
    if k == 0 then "" else Hex(n / 16, k - 1) + [HEX[n % 16]]
  }

  /** `str` of a UUID: 32 hexadecimal digits in groups of 8, 4, 4, 4 and 12 (section 3 of RFC 4122). */
  function Canonical(digits: string): (s: string)
    requires |digits| == 32
    ensures |s| == 36
  {
    digits[..8] + "-" + digits[8..12] + "-" + digits[12..16] + "-" + digits[16..20] + "-" + digits[20..]
  }

  function UuidText(x: Id): string { Canonical(Hex(x, 32)) }

  lemma {:induction false} HexInjective(n: nat, m: nat, k: nat)
    requires n < Pow16(k) && m < Pow16(k) && Hex(n, k) == Hex(m, k)
    ensures n == m
  {
    if k > 0 {
      var a, b := Hex(n, k), Hex(m, k);
      assert a[..k - 1] == Hex(n / 16, k - 1) && b[..k - 1] == Hex(m / 16, k - 1);
      assert a[k - 1] == HEX[n % 16] && b[k - 1] == HEX[m % 16];
      HexInjective(n / 16, m / 16, k - 1);
    }
  }

  /** The digit at position `i` stands behind the dashes before it. */
  lemma CanonicalAt(digits: string, i: nat)
    requires |digits| == 32 && i < 32
    ensures var dashes := if i < 8 then 0 else if i < 12 then 1 else if i < 16 then 2 else if i < 20 then 3 else 4;
            Canonical(digits)[i + dashes] == digits[i]
  {
  }

  lemma CanonicalInjective(a: string, b: string)
    requires |a| == |b| == 32 && Canonical(a) == Canonical(b)
    ensures a == b
  {
    forall i | 0 <= i < 32 ensures a[i] == b[i] {
      CanonicalAt(a, i);
      CanonicalAt(b, i);
    }
  }

  /** The form in use prints every 128-bit id, so what this module says of printers holds of the stored paths. */
  lemma UuidTextPrints(ids: set<Id>, k: nat)
    requires k == 32 && forall x :: x in ids ==> x < Pow16(k)
    ensures Printer(UuidText, ids)
  {
    forall x | x in ids ensures IsUuid(UuidText(x)) {
      assert forall c :: c in UuidText(x) ==> c == '-' || c in Hex(x, k);
    }
    forall x, y | x in ids && y in ids && UuidText(x) == UuidText(y) ensures x == y {
      CanonicalInjective(Hex(x, k), Hex(y, k));
      HexInjective(x, y, k);
    }
  }
}
