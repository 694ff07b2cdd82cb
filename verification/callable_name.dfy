/**
  `fn::is_callable_name`: does a string name a function or static method
  (and so is called by name) rather than hold an expression to compile?

  The source matches the PCRE pattern
    ^(\\?IDENT)+(::IDENT)?$   with IDENT = [a-zA-Z_\x7f-\xff][a-zA-Z0-9_\x7f-\xff]*
  Here that pattern is written out as a grammar (`Matches`), and the
  recogniser (`IsCallableName`) is a hand-rolled scanner proved to accept
  exactly the strings the grammar describes. Two details of PCRE carry over:
  bytes 0x7f..0xff count as identifier characters (every byte of a multibyte
  UTF-8 character does, so any character from U+007F up does here), and `$`
  without the D modifier also matches before a final newline.
 */
module CallableName {

  /** `[a-zA-Z_\x7f-\xff]` */
  predicate IdentStart(c: char) {
    ('a' <= c <= 'z') || ('A' <= c <= 'Z') || c == '_' || c as int >= 0x7f
  }

  /** `[a-zA-Z0-9_\x7f-\xff]` */
  predicate IdentChar(c: char) {
    IdentStart(c) || ('0' <= c <= '9')
  }

  /** A character that may occur in the namespace path part. */
  predicate PathChar(c: char) {
    IdentChar(c) || c == '\\'
  }

  // --- The pattern, as a grammar --- //

  /** IDENT */
  ghost predicate Ident(s: string) {
    |s| > 0 && IdentStart(s[0]) && forall i :: 1 <= i < |s| ==> IdentChar(s[i])
  }

  /** `\\?IDENT` */
  ghost predicate Segment(s: string) {
    Ident(s) || (|s| > 0 && s[0] == '\\' && Ident(s[1..]))
  }

  /** `(\\?IDENT)+` */
  ghost predicate Path(s: string)
    decreases |s|
  {
    exists k :: 0 < k <= |s| && Segment(s[..k]) && (k == |s| || Path(s[k..]))
  }

  /** `(::IDENT)?` */
  ghost predicate Member(s: string) {
    s == [] || (|s| >= 2 && s[0] == ':' && s[1] == ':' && Ident(s[2..]))
  }

  /** What `$` lets through at the end: nothing, or one final newline. */
  predicate LineEnd(s: string) {
    s == [] || s == "\n"
  }

  /** The whole pattern, anchored at both ends. */
  ghost predicate Matches(s: string) {
    exists i, j :: 0 <= i <= j <= |s| && Path(s[..i]) && Member(s[i..j]) && LineEnd(s[j..])
  }

  // --- The scanner --- //

  /** The end of the run of path characters that starts at `from`. */
  function PathEnd(s: string, from: nat): (n: nat)
    requires from <= |s|
    requires forall i :: 0 <= i < from ==> PathChar(s[i])
    ensures from <= n <= |s|
    ensures forall i :: 0 <= i < n ==> PathChar(s[i])
    ensures n < |s| ==> !PathChar(s[n])
    decreases |s| - from
  {
    if from == |s| || !PathChar(s[from]) then from else PathEnd(s, from + 1)
  }

  /** Length of the longest prefix made of identifier characters and backslashes. */
  function PathLength(s: string): (n: nat)
    ensures n <= |s|
    ensures forall i :: 0 <= i < n ==> PathChar(s[i])
    ensures n < |s| ==> !PathChar(s[n])
  {
    PathEnd(s, 0)
  }

  /** Every backslash is followed by an identifier start. */
  function Separated(p: string): (b: bool)
    ensures b <==> forall i :: 0 <= i < |p| && p[i] == '\\' ==> i + 1 < |p| && IdentStart(p[i + 1])
  {
    if p == [] then true
    else
      var b := (p[0] == '\\' ==> |p| > 1 && IdentStart(p[1])) && Separated(p[1..]);
      assert forall i :: 1 <= i < |p| ==> p[i] == p[1..][i - 1];
      b
  }

  /** Identifier characters, then at most one final newline. */
  function IdentTail(u: string): (b: bool)
    ensures b <==> forall i :: 0 <= i < |u| ==> IdentChar(u[i]) || (i == |u| - 1 && u[i] == '\n')
  {
    if u == [] || u == "\n" then true
    else
      var b := IdentChar(u[0]) && IdentTail(u[1..]);
      assert forall i :: 1 <= i < |u| ==> u[i] == u[1..][i - 1];
      b
  }

  /** The namespace path: non-empty, starting with a backslash or an identifier start, well separated. */
  function PathOk(p: string): bool {
    |p| > 0 && (p[0] == '\\' || IdentStart(p[0])) && Separated(p)
  }

  /** What may follow the path: the line end, or `::` and an identifier, then the line end. */
  function TailOk(t: string): bool {
    LineEnd(t) || (|t| >= 3 && t[0] == ':' && t[1] == ':' && IdentStart(t[2]) && IdentTail(t[3..]))
  }

  /** `fn::is_callable_name($s)`: scan the longest path prefix, then check what follows it. */
  function IsCallableName(s: string): bool {
    var k := PathLength(s);
    PathOk(s[..k]) && TailOk(s[k..])
  }

  // --- The scanner accepts exactly the pattern --- //

  /** The characters of a segment: a leading backslash, then an identifier. */
  lemma SegmentShape(s: string)
    requires Segment(s)
    ensures PathOk(s)
    ensures forall i :: 0 <= i < |s| ==> PathChar(s[i])
    ensures forall i :: 0 < i < |s| ==> s[i] != '\\'
  {
    if !Ident(s) {
      assert forall i :: 1 <= i < |s| ==> s[i] == s[1..][i - 1];
    }
  }

  /** A path is a non-empty run of path characters whose backslashes each start an identifier. */
  lemma {:induction false} PathSound(p: string)
    requires Path(p)
    ensures PathOk(p)
    ensures forall i :: 0 <= i < |p| ==> PathChar(p[i])
    decreases |p|
  {
    var k :| 0 < k <= |p| && Segment(p[..k]) && (k == |p| || Path(p[k..]));
    SegmentShape(p[..k]);
    assert forall i :: 0 <= i < k ==> p[i] == p[..k][i];
    if k < |p| {
      PathSound(p[k..]);
      assert forall i :: k <= i < |p| ==> p[i] == p[k..][i - k];
    }
  }

  /** The first backslash at or after `i`, or the end. */
  function NextBackslash(p: string, i: nat): (k: nat)
    requires i <= |p|
    ensures i <= k <= |p|
    ensures k < |p| ==> p[k] == '\\'
    ensures forall j :: i <= j < k ==> p[j] != '\\'
    decreases |p| - i
  {
    if i == |p| || p[i] == '\\' then i else NextBackslash(p, i + 1)
  }

  /** Conversely, such a run splits into segments at its backslashes. */
  lemma {:induction false} PathComplete(p: string)
    requires PathOk(p)
    requires forall i :: 0 <= i < |p| ==> PathChar(p[i])
    ensures Path(p)
    decreases |p|
  {
    if p[0] == '\\' {
      assert 1 < |p| && IdentStart(p[1]);
    }
    var k := NextBackslash(p, 1);
    var seg := p[..k];
    if p[0] == '\\' {
      assert k >= 2;
      assert Ident(seg[1..]) by {
        assert forall i :: 1 <= i < |seg[1..]| ==> seg[1..][i] == p[i + 1];
      }
    } else {
      assert Ident(seg) by {
        assert forall i :: 1 <= i < |seg| ==> seg[i] == p[i];
      }
    }
    assert Segment(seg);
    if k < |p| {
      var rest := p[k..];
      assert forall i :: 0 <= i < |rest| ==> rest[i] == p[k + i];
      assert PathOk(rest);
      PathComplete(rest);
    }
    assert 0 < k <= |p| && Segment(p[..k]) && (k == |p| || Path(p[k..]));
  }

  /** What follows the path part: the scanner's check is the grammar's `(::IDENT)?$`. */
  lemma TailMatches(t: string)
    ensures TailOk(t) <==> exists j :: 0 <= j <= |t| && Member(t[..j]) && LineEnd(t[j..])
  {
    if TailOk(t) {
      if LineEnd(t) {
        assert Member(t[..0]) && LineEnd(t[0..]);
      } else {
        var j := if |t| > 3 && t[|t| - 1] == '\n' then |t| - 1 else |t|;
        assert forall i :: 3 <= i < |t| ==> t[i] == t[3..][i - 3];
        var m := t[..j];
        assert Ident(m[2..]) by {
          assert forall i :: 1 <= i < |m[2..]| ==> m[2..][i] == t[i + 2];
        }
        assert LineEnd(t[j..]);
        assert Member(t[..j]) && LineEnd(t[j..]);
      }
    }
    if exists j :: 0 <= j <= |t| && Member(t[..j]) && LineEnd(t[j..]) {
      var j :| 0 <= j <= |t| && Member(t[..j]) && LineEnd(t[j..]);
      if j > 0 {
        var m := t[..j];
        assert forall i :: 2 <= i < j ==> t[i] == m[2..][i - 2];
        assert forall i :: 3 <= i < |t| ==> t[i] == t[3..][i - 3];
        assert j == |t| || (j == |t| - 1 && t[j] == '\n') by {
          assert t[j..] == [] || t[j..] == "\n";
        }
        assert IdentTail(t[3..]);
      }
    }
  }

  /** Every string the scanner accepts matches the pattern. */
  lemma ScannerSound(s: string)
    requires IsCallableName(s)
    ensures Matches(s)
  {
    var k := PathLength(s);
    assert forall i :: 0 <= i < k ==> s[..k][i] == s[i];
    PathComplete(s[..k]);
    TailMatches(s[k..]);
    var j :| 0 <= j <= |s[k..]| && Member(s[k..][..j]) && LineEnd(s[k..][j..]);
    assert s[k..][..j] == s[k..k + j];
    assert s[k..][j..] == s[k + j..];
    assert Path(s[..k]) && Member(s[k..k + j]) && LineEnd(s[k + j..]);
  }

  /**
    Every string the pattern matches is accepted: the path part of a match
    is necessarily the longest prefix of path characters, since what may
    follow it starts with `:` or a newline.
   */
  lemma ScannerComplete(s: string)
    requires Matches(s)
    ensures IsCallableName(s)
  {
    var i, j :| 0 <= i <= j <= |s| && Path(s[..i]) && Member(s[i..j]) && LineEnd(s[j..]);
    PathSound(s[..i]);
    assert forall n :: 0 <= n < i ==> PathChar(s[n]) by {
      assert forall n :: 0 <= n < i ==> s[n] == s[..i][n];
    }
    assert i < |s| ==> !PathChar(s[i]) by {
      if i < |s| {
        if i < j {
          assert s[i] == s[i..j][0];
        } else {
          assert s[i] == s[j..][0];
        }
      }
    }
    var k := PathLength(s);
    assert k == i;
    assert s[k..][..j - k] == s[i..j];
    assert s[k..][j - k..] == s[j..];
    TailMatches(s[k..]);
  }

  /** The scanner accepts a string exactly when the pattern matches it. */
  lemma ScannerMatchesPattern(s: string)
    ensures IsCallableName(s) <==> Matches(s)
  {
    if IsCallableName(s) {
      ScannerSound(s);
    }
    if Matches(s) {
      ScannerComplete(s);
    }
  }

  /** A plain identifier, with no namespace and no member, is a callable name. */
  lemma IdentIsName(s: string)
    requires Ident(s)
    ensures IsCallableName(s)
  {
    var k := PathLength(s);
    assert forall i :: 0 <= i < |s| ==> PathChar(s[i]);
    assert k == |s|;
    assert s[..k] == s;
    assert s[k..] == [];
    assert forall i :: 0 <= i < |s| ==> s[i] != '\\';
  }

  // --- Examples: names are called, everything else is compiled --- //

  lemma AcceptsPlainName()
    ensures IsCallableName("foo_bar")
  {
    IdentIsName("foo_bar");
  }

  lemma AcceptsStaticMethod()
    ensures IsCallableName("foo_bar::baz")
  {
    assert PathLength("foo_bar::baz") == 7;
    assert "foo_bar::baz"[..7] == "foo_bar";
    assert "foo_bar::baz"[7..] == "::baz";
  }

  lemma AcceptsNamespacedName()
    ensures IsCallableName("a\\bc")
  {
  }

  lemma AcceptsQualifiedStaticMethod()
    ensures IsCallableName("\\a\\b::c_d0")
  {
    assert PathLength("\\a\\b::c_d0") == 4;
    assert "\\a\\b::c_d0"[..4] == "\\a\\b";
    assert "\\a\\b::c_d0"[4..] == "::c_d0";
  }

  lemma RejectsSpace()
    ensures !IsCallableName("foo bar")
  {
    assert PathLength("foo bar") == 3;
    assert "foo bar"[3..] == " bar";
  }

  lemma RejectsCall()
    ensures !IsCallableName("foo(bar)")
  {
    assert PathLength("foo(bar)") == 3;
    assert "foo(bar)"[3..] == "(bar)";
  }

  lemma RejectsVariable()
    ensures !IsCallableName("$_")
  {
    assert PathLength("$_") == 0;
  }

  lemma RejectsEmpty()
    ensures !IsCallableName("")
  {
  }

  lemma RejectsDoubleBackslash()
    ensures !IsCallableName("foo\\\\bar")
  {
    assert PathLength("foo\\\\bar") == 8;
    assert "foo\\\\bar"[..8] == "foo\\\\bar";
    assert !Separated("foo\\\\bar") by {
      assert "foo\\\\bar"[3] == '\\';
      assert "foo\\\\bar"[4] == '\\';
    }
  }

  lemma RejectsTwoMembers()
    ensures !IsCallableName("foo::bar::baz")
  {
    assert PathLength("foo::bar::baz") == 3;
    assert "foo::bar::baz"[3..] == "::bar::baz";
    assert "foo::bar::baz"[3..][3..] == "ar::baz";
    assert !IdentTail("ar::baz") by {
      assert "ar::baz"[2] == ':';
    }
  }

  lemma RejectsTripleColon()
    ensures !IsCallableName("baz:::spam")
  {
    assert PathLength("baz:::spam") == 3;
    assert "baz:::spam"[3..] == ":::spam";
  }
}
