/** Pattern matching of the ILIKE operator, and what the vendor search makes of a search term. */
module Like {

  /** `%` stands for any run of characters, `_` for any one, a backslash for the next character. */
  predicate Matches(p: string, t: string)
    decreases |p| + |t|
  {
    if p == "" then t == ""
    else if p[0] == '%' then Matches(p[1..], t) || (t != "" && Matches(p, t[1..]))
    else if t == "" then false
    else if p[0] == '_' then Matches(p[1..], t[1..])
    else if p[0] == '\\' && |p| > 1 then t[0] == p[1] && Matches(p[2..], t[1..])
    else p[0] == t[0] && Matches(p[1..], t[1..])
  }

  function LowerChar(c: char): char {
    if 'A' <= c <= 'Z' then (c as int + 32) as char else c
  }

  /** Case folding of ASCII letters. */
  function Lower(s: string): string {
    seq(|s|, i requires 0 <= i < |s| => LowerChar(s[i]))
  }

  /** Two strings fold alike exactly when they agree up to the case of ASCII letters. */
  lemma FoldAlikeIff(a: string, b: string)
    ensures Lower(a) == Lower(b) <==>
      && |a| == |b|
      && forall i :: 0 <= i < |a| ==>
           || a[i] == b[i]
           || ('A' <= a[i] <= 'Z' && b[i] as int == a[i] as int + 32)
           || ('A' <= b[i] <= 'Z' && a[i] as int == b[i] as int + 32)
  {
    if |a| == |b| {
      forall i | 0 <= i < |a| ensures Lower(a)[i] == Lower(b)[i] <==>
          || a[i] == b[i]
          || ('A' <= a[i] <= 'Z' && b[i] as int == a[i] as int + 32)
          || ('A' <= b[i] <= 'Z' && a[i] as int == b[i] as int + 32) {
      }
    }
  }

  predicate ILike(pattern: string, text: string) {
    Matches(Lower(pattern), Lower(text))
  }

  predicate Plain(s: string) {
    '%' !in s && '_' !in s && '\\' !in s
  }

  predicate Contains(t: string, s: string) {
    exists i :: 0 <= i <= |t| && s <= t[i..]
  }

  lemma {:induction false} PercentMatchesAll(t: string)
    ensures Matches("%", t)
    decreases |t|
  {
    if t != "" {
      PercentMatchesAll(t[1..]);
    } else {
      assert "%"[1..] == "";
    }
  }

  lemma {:induction false} PlainPrefix(s: string, t: string)
    requires Plain(s)
    ensures Matches(s + "%", t) <==> s <= t
    decreases |s|
  {
    if s == "" {
      assert s + "%" == "%";
      PercentMatchesAll(t);
    } else {
      assert (s + "%")[1..] == s[1..] + "%" && (s + "%")[0] == s[0];
      assert s[0] in s;
      if t != "" {
        PlainPrefix(s[1..], t[1..]);
        assert s <= t <==> s[0] == t[0] && s[1..] <= t[1..] by {
          assert s == [s[0]] + s[1..] && t == [t[0]] + t[1..];
        }
      }
    }
  }

  lemma {:induction false} PlainInfix(s: string, t: string)
    requires Plain(s)
    ensures Matches("%" + s + "%", t) <==> Contains(t, s)
    decreases |t|
  {
    var p := "%" + s + "%";
    assert p[1..] == s + "%";
    PlainPrefix(s, t);
    if t != "" {
      PlainInfix(s, t[1..]);
      if Contains(t[1..], s) {
        var i :| 0 <= i <= |t| - 1 && s <= t[1..][i..];
        assert t[1..][i..] == t[i + 1..];
      }
      if Contains(t, s) && !(s <= t) {
        var i :| 0 <= i <= |t| && s <= t[i..];
        assert t[0..] == t;
        assert t[i..] == t[1..][i - 1..];
      }
    }
    if s <= t {
      assert t[0..] == t;
    }
  }

  lemma LowerKeepsPlain(s: string)
    requires Plain(s)
    ensures Plain(Lower(s))
  {
    forall i | 0 <= i < |s| ensures Lower(s)[i] != '%' && Lower(s)[i] != '_' && Lower(s)[i] != '\\' {
      assert s[i] in s;
    }
  }

  /** The search filter '%' + term + '%' finds exactly the names containing the term, up to case,
      for a term without pattern characters. */
  lemma SearchFindsSubstring(term: string, name: string)
    requires Plain(term)
    ensures ILike("%" + term + "%", name) <==> Contains(Lower(name), Lower(term))
  {
    LowerKeepsPlain(term);
    PlainInfix(Lower(term), Lower(name));
    assert Lower("%" + term + "%") == "%" + Lower(term) + "%";
  }

  // ---- the pattern characters -------------------------------------------------------------

  /** The text with a backslash before each pattern character. */
  function Escaped(s: string): string {
    if s == "" then ""
    else (if s[0] == '%' || s[0] == '_' || s[0] == '\\' then ['\\', s[0]] else [s[0]]) + Escaped(s[1..])
  }

  /** An escaped text matches itself and nothing else. */
  lemma {:induction false} EscapedMatchesItself(s: string, t: string)
    ensures Matches(Escaped(s), t) <==> s == t
    decreases |s|
  {
    if s != "" {
      var p, rest := Escaped(s), Escaped(s[1..]);
      if s[0] == '%' || s[0] == '_' || s[0] == '\\' {
        assert p[0] == '\\' && p[1] == s[0] && p[2..] == rest;
      } else {
        assert p[0] == s[0] && p[1..] == rest;
      }
      if t != "" {
        EscapedMatchesItself(s[1..], t[1..]);
        assert s == [s[0]] + s[1..] && t == [t[0]] + t[1..];
      }
    }
  }

  /** Underscores match exactly the texts of their number. */
  lemma {:induction false} UnderscoresCount(n: nat, t: string)
    ensures Matches(seq(n, _ => '_'), t) <==> |t| == n
  {
    if n > 0 && t != "" {
      UnderscoresCount(n - 1, t[1..]);
      assert seq(n, _ => '_')[1..] == seq(n - 1, _ => '_');
    }
  }

  // ---- terms with pattern characters ------------------------------------------------------

  /** A text the pattern p + "%" matches that is no longer than p. */
  function Witness(p: string): string {
    if p == "" then ""
    else if p[0] == '%' then Witness(p[1..])
    else if p[0] == '_' then ['a'] + Witness(p[1..])
    else if p[0] == '\\' && |p| > 1 then [p[1]] + Witness(p[2..])
    else if p[0] == '\\' then "%"
    else [p[0]] + Witness(p[1..])
  }

  lemma {:induction false} WitnessMatches(p: string)
    ensures Matches(p + "%", Witness(p))
  {
    var q, w := p + "%", Witness(p);
    if p == "" {
      PercentMatchesAll("");
      assert q == "%";
    } else if p[0] == '\\' && |p| > 1 {
      assert q[2..] == p[2..] + "%" && w[1..] == Witness(p[2..]);
      WitnessMatches(p[2..]);
    } else if p[0] == '\\' {
      assert q == "\\%" && w == "%" && q[2..] == "" && w[1..] == "";
    } else {
      assert q[1..] == p[1..] + "%";
      assert p[0] != '%' ==> w[1..] == Witness(p[1..]);
      WitnessMatches(p[1..]);
    }
  }

  lemma {:induction false} WitnessDiffers(p: string)
    ensures |Witness(p)| <= |p|
    ensures Witness(p) == p ==> Plain(p)
    ensures Lower(p) == p ==> Lower(Witness(p)) == Witness(p)
  {
    if p == "" {
    } else if p[0] == '\\' && |p| > 1 {
      WitnessDiffers(p[2..]);
      assert Lower(p) == p ==> Lower(p[2..]) == p[2..] && LowerChar(p[1]) == Lower(p)[1];
    } else {
      WitnessDiffers(p[1..]);
      assert Lower(p) == p ==> Lower(p[1..]) == p[1..] && LowerChar(p[0]) == Lower(p)[0];
      assert p == [p[0]] + p[1..];
    }
  }

  /** A search term is taken literally for every name exactly when it has no pattern character: nothing escapes
      percent, underscore and backslash in it. */
  lemma SearchIsLiteralIff(term: string)
    ensures (forall name :: ILike("%" + term + "%", name) <==> Contains(Lower(name), Lower(term))) <==> Plain(term)
  {
    if Plain(term) {
      forall name ensures ILike("%" + term + "%", name) <==> Contains(Lower(name), Lower(term)) {
        SearchFindsSubstring(term, name);
      }
    } else {
      NonPlainTermMissed(term, Lower(term), Witness(Lower(term)));
    }
  }

  lemma NonPlainTermMissed(term: string, p: string, name: string)
    requires !Plain(term) && p == Lower(term) && name == Witness(p)
    ensures ILike("%" + term + "%", name) && !Contains(Lower(name), p)
  {
    if Plain(p) {
      LowerKeepsPattern(term);
    }
    assert Lower(p) == p;
    WitnessDiffers(p);
    WitnessMatches(p);
    assert Lower("%" + term + "%") == "%" + p + "%" && ("%" + p + "%")[1..] == p + "%";
    assert name[0..] == name && (p <= name ==> p == name);
    forall i | 0 <= i <= |name| ensures !(p <= name[i..]) {
      assert i > 0 && p != "" ==> |name[i..]| < |p|;
    }
  }

  lemma LowerKeepsPattern(s: string)
    requires Plain(Lower(s))
    ensures Plain(s)
  {
    forall c | c in s ensures c != '%' && c != '_' && c != '\\' {
      var i :| 0 <= i < |s| && s[i] == c;
      assert Lower(s)[i] in Lower(s);
    }
  }
}
