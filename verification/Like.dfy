/**
 Substring search by LIKE: the escaping of user text, and a LIKE matcher to measure it
 against (section 8.5 of ISO/IEC 9075-2; ILIKE as in section 9.7.1 of the PostgreSQL
 manual).
 */
module Like {
  // ---------- Escaping ----------

  // Puts a backslash before each character of the class.
  function EscapeClass(cls: string, s: string): string {
    if s == [] then []
    else (if s[0] in cls then ['\\', s[0]] else [s[0]]) + EscapeClass(cls, s[1..])
  }

  // The shared helper, and the private copy in the Kayan service, whose class lists the same characters in another order.
  function EscapeLike(s: string): string {
    EscapeClass("%_\\", s)
  }

  function KayanEscapeLike(s: string): string {
    EscapeClass("\\%_", s)
  }

  lemma {:induction false} EscapesAgree(s: string)
    ensures EscapeLike(s) == KayanEscapeLike(s)
  {
    if s != [] {
      EscapesAgree(s[1..]);
    }
  }

  function Unescape(s: string): string {
    if s == [] then []
    else if s[0] == '\\' && |s| >= 2 then [s[1]] + Unescape(s[2..])
    else [s[0]] + Unescape(s[1..])
  }

  lemma {:induction false} UnescapeEscape(s: string)
    ensures Unescape(EscapeLike(s)) == s
  {
    if s != [] {
      UnescapeEscape(s[1..]);
      var e := EscapeLike(s);
      if s[0] in "%_\\" {
        assert e[2..] == EscapeLike(s[1..]);
      } else {
        assert e[1..] == EscapeLike(s[1..]);
      }
    }
  }

  /** Different texts never escape to the same pattern. */
  lemma EscapeInjective(s: string, t: string)
    requires EscapeLike(s) == EscapeLike(t)
    ensures s == t
  {
    UnescapeEscape(s);
    UnescapeEscape(t);
  }

  // ---------- LIKE with escape character '\' ----------

  // Does `t` match pattern `p`?  A pattern that ends in a lone escape character is an error, and matches nothing here.
  predicate Matches(p: string, t: string)
    decreases |p| + |t|
  {
    if p == [] then t == []
    else if p[0] == '%' then Matches(p[1..], t) || (t != [] && Matches(p, t[1..]))
    else if p[0] == '_' then t != [] && Matches(p[1..], t[1..])
    else if p[0] == '\\' then |p| >= 2 && t != [] && t[0] == p[1] && Matches(p[2..], t[1..])
    else t != [] && t[0] == p[0] && Matches(p[1..], t[1..])
  }

  predicate IsPrefix(s: string, t: string) {
    |s| <= |t| && t[..|s|] == s
  }

  predicate Occurs(s: string, t: string) {
    exists i :: 0 <= i <= |t| && IsPrefix(s, t[i..])
  }

  lemma {:induction false} PercentMatchesAll(t: string)
    ensures Matches("%", t)
  {
    if t != [] {
      PercentMatchesAll(t[1..]);
    } else {
      assert "%"[1..] == [];
    }
  }

  lemma {:induction false} EscapedPrefix(s: string, t: string)
    ensures Matches(EscapeLike(s) + "%", t) <==> IsPrefix(s, t)
  {
    var p := EscapeLike(s) + "%";
    if s == [] {
      assert p == "%";
      PercentMatchesAll(t);
    } else {
      assert p[if s[0] in "%_\\" then 2 else 1..] == EscapeLike(s[1..]) + "%";
      if t != [] {
        EscapedPrefix(s[1..], t[1..]);
        assert IsPrefix(s, t) <==> s[0] == t[0] && IsPrefix(s[1..], t[1..]) by {
          if s[0] == t[0] && IsPrefix(s[1..], t[1..]) {
            assert s == [s[0]] + s[1..] && t == [t[0]] + t[1..];
          }
          if IsPrefix(s, t) {
            assert t[0] == t[..|s|][0];
            assert t[1..][..|s| - 1] == t[..|s|][1..];
          }
        }
      }
    }
  }

  /** The pattern built from a search text matches exactly the rows in which that text occurs literally. */
  lemma {:induction false} ContainsSearch(s: string, t: string)
    ensures Matches("%" + EscapeLike(s) + "%", t) <==> Occurs(s, t)
  {
    var p := "%" + EscapeLike(s) + "%";
    assert p[1..] == EscapeLike(s) + "%";
    EscapedPrefix(s, t);
    assert t[0..] == t;
    if t != [] {
      ContainsSearch(s, t[1..]);
      if Occurs(s, t[1..]) {
        var i :| 0 <= i <= |t[1..]| && IsPrefix(s, t[1..][i..]);
        assert t[1..][i..] == t[i + 1..];
      }
      if Occurs(s, t) && !IsPrefix(s, t) {
        var i :| 0 <= i <= |t| && IsPrefix(s, t[i..]);
        assert t[1..][i - 1..] == t[i..];
      }
    }
  }

  // ---------- ILIKE ----------

  function FoldAll(fold: char -> char, s: string): (r: string)
    ensures |r| == |s|
    ensures forall i :: 0 <= i < |s| ==> r[i] == fold(s[i])
  {
    seq(|s|, i requires 0 <= i < |s| => fold(s[i]))
  }

  // Case folding neither produces nor changes the characters LIKE treats specially.
  ghost predicate FoldsLetters(fold: char -> char) {
    forall c: char :: fold(c) in "%_\\" || c in "%_\\" ==> fold(c) == c
  }

  predicate IMatches(fold: char -> char, p: string, t: string) {
    Matches(FoldAll(fold, p), FoldAll(fold, t))
  }

  lemma {:induction false} FoldEscape(fold: char -> char, s: string)
    requires FoldsLetters(fold)
    ensures FoldAll(fold, EscapeLike(s)) == EscapeLike(FoldAll(fold, s))
  {
    if s != [] {
      FoldEscape(fold, s[1..]);
      assert FoldAll(fold, s)[1..] == FoldAll(fold, s[1..]);
      var head := if s[0] in "%_\\" then ['\\', s[0]] else [s[0]];
      assert EscapeLike(s) == head + EscapeLike(s[1..]);
      assert FoldAll(fold, EscapeLike(s)) == FoldAll(fold, head) + FoldAll(fold, EscapeLike(s[1..]));
    }
  }

  /** Under ILIKE, the same up to case. */
  lemma IContainsSearch(fold: char -> char, s: string, t: string)
    requires FoldsLetters(fold)
    ensures IMatches(fold, "%" + EscapeLike(s) + "%", t) <==> Occurs(FoldAll(fold, s), FoldAll(fold, t))
  {
    FoldEscape(fold, s);
    assert FoldAll(fold, "%" + EscapeLike(s) + "%") == "%" + EscapeLike(FoldAll(fold, s)) + "%";
    ContainsSearch(FoldAll(fold, s), FoldAll(fold, t));
  }
}
