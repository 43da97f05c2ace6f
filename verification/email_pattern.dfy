/** The e-mail validator of the User schema, the regular expression
        ^\w+([\.-]?\w+)*@\w+([\.-]?\w+)*(\.\w{2,3})+$
    (`\w` is `[A-Za-z0-9_]`; the pattern has no flags).

    The pattern is given twice: once as a grammar that follows the expression
    piece by piece (`EmailGrammar`, ghost), and once as a direct recogniser
    (`IsEmail`) that scans for the `@` and the last dot. `EmailRecogniser`
    proves the two accept the same strings. */
module EmailPattern {
  import opened Wrappers
  import opened Text

  predicate IsWordChar(c: char)
  {
    ('a' <= c <= 'z') || ('A' <= c <= 'Z') || ('0' <= c <= '9') || c == '_'
  }

  predicate IsSep(c: char)
  {
    c == '.' || c == '-'
  }

  // ---------------------------------------------------------------------
  // The regular expression read as a grammar.
  // ---------------------------------------------------------------------

  /** `\w+` */
  ghost predicate Word(s: string)
  {
    |s| >= 1 && forall i :: 0 <= i < |s| ==> IsWordChar(s[i])
  }

  /** `[\.-]?\w+` */
  ghost predicate Group(g: string)
  {
    Word(g) || (|g| >= 2 && IsSep(g[0]) && Word(g[1..]))
  }

  /** `([\.-]?\w+)*` */
  ghost predicate Groups(s: string)
    decreases |s|
  {
    s == [] || exists j :: 1 <= j <= |s| && Group(s[..j]) && Groups(s[j..])
  }

  /** `\w+([\.-]?\w+)*` */
  ghost predicate Dotted(s: string)
  {
    exists i :: 1 <= i <= |s| && Word(s[..i]) && Groups(s[i..])
  }

  /** `\.\w{2,3}` followed by the rest of `(\.\w{2,3})+`, for a group of `j` characters. */
  ghost predicate TldsFrom(s: string, j: int)
    requires 3 <= j <= 4
    decreases |s|, 0
  {
    j <= |s| && s[0] == '.' && Word(s[1..j]) && (j == |s| || Tlds(s[j..]))
  }

  /** `(\.\w{2,3})+` */
  ghost predicate Tlds(s: string)
    decreases |s|, 1
  {
    TldsFrom(s, 3) || TldsFrom(s, 4)
  }

  /** `\w+([\.-]?\w+)*(\.\w{2,3})+` */
  ghost predicate DomainGrammar(d: string)
  {
    exists b :: 0 <= b <= |d| && Dotted(d[..b]) && Tlds(d[b..])
  }

  /** The whole anchored pattern. */
  ghost predicate EmailGrammar(s: string)
  {
    exists a :: 0 <= a < |s| && s[a] == '@' && Dotted(s[..a]) && DomainGrammar(s[a + 1..])
  }

  // ---------------------------------------------------------------------
  // The recogniser.
  // ---------------------------------------------------------------------

  /** Word characters and separators only, every separator followed by a word character. */
  predicate SepsFollowedByWord(t: string)
  {
    && (forall i :: 0 <= i < |t| ==> IsWordChar(t[i]) || IsSep(t[i]))
    && (forall i :: 0 <= i < |t| && IsSep(t[i]) ==> i + 1 < |t| && IsWordChar(t[i + 1]))
  }

  /** A non-empty run of words joined by single dots or hyphens. */
  predicate IsDotted(s: string)
  {
    |s| >= 1 && IsWordChar(s[0]) && SepsFollowedByWord(s)
  }

  /** A dotted run, then a last dot and two or three word characters. */
  predicate IsDomain(d: string)
  {
    match LastIndexOf(d, '.')
    case None => false
    case Some(p) =>
      && IsDotted(d[..p])
      && 2 <= |d| - p - 1 <= 3
      && forall i :: p < i < |d| ==> IsWordChar(d[i])
  }

  /** The local part before the first `@`, the domain after it. */
  predicate IsEmail(s: string)
  {
    match FirstIndexOf(s, '@')
    case None => false
    case Some(a) => IsDotted(s[..a]) && IsDomain(s[a + 1..])
  }

  // ---------------------------------------------------------------------
  // Equivalence.
  // ---------------------------------------------------------------------

  lemma {:induction false} ShapeGivesGroups(t: string)
    requires SepsFollowedByWord(t)
    ensures Groups(t)
    decreases |t|
  {
    if t != [] {
      var j := if IsWordChar(t[0]) then 1 else 2;
      assert Word(t[..j][j - 1..]);
      assert Group(t[..j]);
      assert SepsFollowedByWord(t[j..]);
      ShapeGivesGroups(t[j..]);
    }
  }

  lemma {:induction false} GroupsGiveShape(t: string)
    requires Groups(t)
    ensures SepsFollowedByWord(t)
    decreases |t|
  {
    if t != [] {
      var j :| 1 <= j <= |t| && Group(t[..j]) && Groups(t[j..]);
      GroupsGiveShape(t[j..]);
      var g := t[..j];
      forall i | 0 <= i < |t|
        ensures IsWordChar(t[i]) || IsSep(t[i])
        ensures IsSep(t[i]) ==> i + 1 < |t| && IsWordChar(t[i + 1])
      {
        if i >= j {
          assert t[i] == t[j..][i - j];
          if IsSep(t[i]) {
            assert t[i + 1] == t[j..][i - j + 1];
          }
        } else if Word(g) {
          assert t[i] == g[i];
        } else {
          assert t[i] == g[i];
          if i > 0 {
            assert t[i] == g[1..][i - 1];
          } else {
            assert t[1] == g[1..][0];
          }
        }
      }
    }
  }

  lemma DottedIff(s: string)
    ensures Dotted(s) <==> IsDotted(s)
  {
    if Dotted(s) {
      var i :| 1 <= i <= |s| && Word(s[..i]) && Groups(s[i..]);
      GroupsGiveShape(s[i..]);
      forall k | 0 <= k < |s|
        ensures IsWordChar(s[k]) || IsSep(s[k])
        ensures IsSep(s[k]) ==> k + 1 < |s| && IsWordChar(s[k + 1])
      {
        if k < i {
          assert s[k] == s[..i][k];
          if k + 1 < i {
            assert s[k + 1] == s[..i][k + 1];
          }
        } else {
          assert s[k] == s[i..][k - i];
          if IsSep(s[k]) {
            assert s[k + 1] == s[i..][k - i + 1];
          }
        }
      }
      assert s[0] == s[..i][0];
    }
    if IsDotted(s) {
      assert SepsFollowedByWord(s[1..]);
      ShapeGivesGroups(s[1..]);
      assert Word(s[..1]);
    }
  }

  /** Appending a dot and a word keeps a dotted run dotted. */
  lemma AppendDotWord(d: string, w: string)
    requires IsDotted(d) && |w| >= 1 && forall i :: 0 <= i < |w| ==> IsWordChar(w[i])
    ensures IsDotted(d + ['.'] + w)
  {
    var x := d + ['.'] + w;
    forall i | 0 <= i < |x| && IsSep(x[i])
      ensures i + 1 < |x| && IsWordChar(x[i + 1])
    {
      if i < |d| {
        assert x[i] == d[i];
        assert x[i + 1] == d[i + 1];
      }
    }
  }

  /** A dotted run, a dot and a short word form a domain in recogniser form. */
  lemma DottedThenLastGroup(d: string, w: string)
    requires IsDotted(d) && 2 <= |w| <= 3 && forall i :: 0 <= i < |w| ==> IsWordChar(w[i])
    ensures IsDomain(d + ['.'] + w)
  {
    var x := d + ['.'] + w;
    assert '.' !in w by {
      forall i | 0 <= i < |w| ensures w[i] != '.' {
        assert IsWordChar(w[i]);
      }
    }
    assert x[|d| + 1..] == w;
    assert LastIndexOf(x, '.') == Some(|d|) by {
      assert x[|d|] == '.';
    }
    assert x[..|d|] == d;
  }

  /** The last top-level group completes a domain. */
  lemma LastGroupCase(d: string, t: string, j: int)
    requires 3 <= j <= 4 && IsDotted(d) && TldsFrom(t, j) && j == |t|
    ensures IsDomain(d + t)
  {
    var w := t[1..j];
    assert forall i :: 0 <= i < |w| ==> IsWordChar(w[i]);
    DottedThenLastGroup(d, w);
    assert t == ['.'] + w;
    assert d + t == d + ['.'] + w;
  }

  /** A top-level group that is not the last one extends the dotted run. */
  lemma NextGroupCase(d: string, t: string, j: int)
    requires 3 <= j <= 4 && IsDotted(d) && TldsFrom(t, j) && j < |t|
    ensures IsDotted(d + t[..j]) && Tlds(t[j..])
    ensures d + t == (d + t[..j]) + t[j..]
  {
    var w := t[1..j];
    assert forall i :: 0 <= i < |w| ==> IsWordChar(w[i]);
    AppendDotWord(d, w);
    assert t[..j] == ['.'] + w;
    assert d + t[..j] == d + ['.'] + w;
    assert t == t[..j] + t[j..];
  }

  /** A dotted run followed by top-level groups is a domain in recogniser form. */
  lemma {:induction false} DottedThenTlds(d: string, t: string)
    requires IsDotted(d) && Tlds(t)
    ensures IsDomain(d + t)
    decreases |t|
  {
    var j := if TldsFrom(t, 3) then 3 else 4;
    if j == |t| {
      LastGroupCase(d, t, j);
    } else {
      NextGroupCase(d, t, j);
      DottedThenTlds(d + t[..j], t[j..]);
    }
  }

  lemma DomainIff(d: string)
    ensures DomainGrammar(d) <==> IsDomain(d)
  {
    if DomainGrammar(d) {
      var b :| 0 <= b <= |d| && Dotted(d[..b]) && Tlds(d[b..]);
      DottedIff(d[..b]);
      DottedThenTlds(d[..b], d[b..]);
      assert d[..b] + d[b..] == d;
    }
    if IsDomain(d) {
      var p := LastIndexOf(d, '.').value;
      DottedIff(d[..p]);
      var t := d[p..];
      assert Word(t[1..|t|]) by {
        forall i | 0 <= i < |t| - 1 ensures IsWordChar(t[1..|t|][i]) {
          assert t[1..|t|][i] == d[p + 1 + i];
        }
      }
      assert Tlds(t);
    }
  }

  /** The recogniser accepts exactly the strings the regular expression matches. */
  lemma EmailRecogniser(s: string)
    ensures IsEmail(s) <==> EmailGrammar(s)
  {
    if EmailGrammar(s) {
      var a :| 0 <= a < |s| && s[a] == '@' && Dotted(s[..a]) && DomainGrammar(s[a + 1..]);
      DottedIff(s[..a]);
      DomainIff(s[a + 1..]);
      assert '@' !in s[..a] by {
        forall i | 0 <= i < a ensures s[..a][i] != '@' {
          assert IsWordChar(s[..a][i]) || IsSep(s[..a][i]);
        }
      }
      assert FirstIndexOf(s, '@') == Some(a);
    }
    if IsEmail(s) {
      var a := FirstIndexOf(s, '@').value;
      DottedIff(s[..a]);
      DomainIff(s[a + 1..]);
    }
  }
}
