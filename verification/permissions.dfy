/** The permission names the login response carries: a Django permission
    `<app_label>.<codename>` is reported by its codename alone. */
module Permissions {
  import opened Text

  const AppSeparator := '.'

  /** `p.split('.')[-1]`. */
  function Codename(p: string): (name: string)
  {
    LastPiece(p, AppSeparator)
  }

  /** The last piece of a split on one character. */
  function LastPiece(s: string, c: char): string
  {
    var parts := Split(s, [c]);
    parts[|parts| - 1]
  }

  /** How the pieces of `s` relate to those of `s[1..]`. */
  lemma SplitStep(s: string, c: char)
    requires s != []
    ensures s[0] == c ==> Split(s, [c]) == [[]] + Split(s[1..], [c])
    ensures s[0] != c ==> Split(s, [c]) == [[s[0]] + Split(s[1..], [c])[0]] + Split(s[1..], [c])[1..]
  {
    assert [c] <= s <==> s[0] == c;
  }

  /** The last piece holds no separator. */
  lemma {:induction false} LastPieceNoSep(s: string, c: char)
    ensures c !in LastPiece(s, c)
    decreases |s|
  {
    if s != [] {
      SplitStep(s, c);
      LastPieceNoSep(s[1..], c);
      if s[0] != c && |Split(s[1..], [c])| == 1 {
        assert LastPiece(s, c) == [s[0]] + LastPiece(s[1..], c);
      }
    }
  }

  /** A text split into one piece is that piece. */
  lemma {:induction false} SinglePiece(s: string, c: char)
    ensures |Split(s, [c])| == 1 ==> LastPiece(s, c) == s
    decreases |s|
  {
    if s != [] {
      SplitStep(s, c);
      SinglePiece(s[1..], c);
      if s[0] != c && |Split(s[1..], [c])| == 1 {
        assert LastPiece(s, c) == [s[0]] + s[1..];
      }
    }
  }

  /** The last piece of a text is the whole text or the last piece of the
      text after its first character. */
  lemma LastPieceStep(s: string, c: char)
    requires s != []
    ensures if s[0] != c && |Split(s[1..], [c])| == 1 then LastPiece(s, c) == s
            else LastPiece(s, c) == LastPiece(s[1..], c)
  {
    SplitStep(s, c);
    SinglePiece(s[1..], c);
  }

  /** The last piece is a suffix of the text. */
  lemma {:induction false} LastPieceSuffix(s: string, c: char)
    ensures EndsWith(s, LastPiece(s, c))
    decreases |s|
  {
    if s != [] {
      LastPieceStep(s, c);
      var last := LastPiece(s[1..], c);
      if LastPiece(s, c) == last {
        LastPieceSuffix(s[1..], c);
        assert s[|s| - |last|..] == s[1..][|s[1..]| - |last|..];
      } else {
        assert s[|s| - |s|..] == s;
      }
    }
  }

  /** The last piece is preceded by the separator unless it is the whole
      text. */
  lemma {:induction false} LastPieceAfterSep(s: string, c: char)
    ensures |LastPiece(s, c)| < |s| ==> s[|s| - |LastPiece(s, c)| - 1] == c
    decreases |s|
  {
    if s != [] {
      var last := LastPiece(s[1..], c);
      SplitStep(s, c);
      LastPieceAfterSep(s[1..], c);
      SinglePiece(s[1..], c);
      if s[0] == c || |Split(s[1..], [c])| != 1 {
        assert LastPiece(s, c) == last;
        if |last| < |s[1..]| {
          assert s[|s| - |last| - 1] == s[1..][|s[1..]| - |last| - 1];
        } else if s[0] != c {
          LastPieceNoSep(s[1..], c);
          LastPieceSuffix(s[1..], c);
          assert last == s[1..];
          SplitNoSep(s[1..], c);
        }
      }
    }
  }

  /** The codename is the text after the last `.`: it contains no `.`, the
      permission ends with it, and it is the whole permission exactly when
      there is no `.` at all. */
  lemma CodenameIsAfterLastDot(p: string)
    ensures AppSeparator !in Codename(p)
    ensures EndsWith(p, Codename(p))
    ensures Codename(p) != p ==> p[|p| - |Codename(p)| - 1] == AppSeparator
    ensures Codename(p) == p <==> AppSeparator !in p
  {
    LastPieceNoSep(p, AppSeparator);
    LastPieceSuffix(p, AppSeparator);
    LastPieceAfterSep(p, AppSeparator);
    if AppSeparator !in p {
      SplitNoSep(p, AppSeparator);
    }
  }

  /** The codename of `<app>.<codename>` when the codename has no `.`. */
  lemma CodenameOfQualified(app: string, codename: string)
    requires AppSeparator !in codename
    ensures Codename(app + [AppSeparator] + codename) == codename
  {
    SplitAround(app, codename, AppSeparator);
    SplitNoSep(codename, AppSeparator);
  }

  /** `[p.split('.')[-1] for p in perms]`, with the permission set given in
      the order the server enumerates it. */
  function PermissionNames(perms: seq<string>): (names: seq<string>)
    ensures |names| == |perms|
    ensures forall i :: 0 <= i < |perms| ==>
      && AppSeparator !in names[i]
      && EndsWith(perms[i], names[i])
      && (names[i] != perms[i] ==> perms[i][|perms[i]| - |names[i]| - 1] == AppSeparator)
      && (names[i] == perms[i] <==> AppSeparator !in perms[i])
  {
    forall p | p in perms {
      CodenameIsAfterLastDot(p);
    }
    seq(|perms|, i requires 0 <= i < |perms| => Codename(perms[i]))
  }
}
