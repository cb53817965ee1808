/** The few pieces of SQL that every modelled migration relies on: nullable columns,
    COALESCE, text normalisation, and the width of the INTEGER type. */
module Sql {

  /** A nullable column. */
  datatype Option<+T> = None | Some(value: T) {
    function GetOr(default: T): T {
      if Some? then value else default
    }
  }

  /** What a statement or a migration does: commit a new state, or abort and leave the old one. */
  datatype Outcome<+S> = Done(state: S) | Aborted

  /** COALESCE of two nullable values. */
  function Coalesce<T>(first: Option<T>, second: Option<T>): Option<T> {
    if first.Some? then first else second
  }

  /** The next row of a cursor, or of a statement's scan: any row not yet handled. */
  method NextRow<T>(rows: set<T>) returns (row: T)
    requires rows != {}
    ensures row in rows
  {
    row :| row in rows;
  }

  /** Some row of a non-empty set of rows. */
  ghost function SomeRow<T>(rows: set<T>): (row: T)
    requires rows != {}
    ensures row in rows
  {
    var row :| row in rows; row
  }

  function UpperChar(c: char): char {
    if 'a' <= c <= 'z' then c - 'a' + 'A' else c
  }

  function LowerChar(c: char): char {
    if 'A' <= c <= 'Z' then c - 'A' + 'a' else c
  }

  /** upper(s), on the ASCII letters. */
  function Upper(s: string): string {
    seq(|s|, i requires 0 <= i < |s| => UpperChar(s[i]))
  }

  /** lower(s), on the ASCII letters. */
  function Lower(s: string): string {
    seq(|s|, i requires 0 <= i < |s| => LowerChar(s[i]))
  }

  /** Equal up to the case of ASCII letters. */
  predicate SameLetter(a: char, b: char) {
    a == b || ('a' <= a <= 'z' && b as int == a as int - 32) || ('A' <= a <= 'Z' && b as int == a as int + 32)
  }

  predicate SameUpToCase(s: string, t: string) {
    |s| == |t| && forall i :: 0 <= i < |s| ==> SameLetter(s[i], t[i])
  }

  /** upper and lower identify exactly the strings that are equal up to case. */
  lemma CaseFolding(s: string, t: string)
    ensures Upper(s) == Upper(t) <==> SameUpToCase(s, t)
    ensures Lower(s) == Lower(t) <==> SameUpToCase(s, t)
  {
    if |s| == |t| {
      forall i | 0 <= i < |s|
        ensures Upper(s)[i] == Upper(t)[i] <==> SameLetter(s[i], t[i])
        ensures Lower(s)[i] == Lower(t)[i] <==> SameLetter(s[i], t[i])
      {
        LetterFolding(s[i], t[i]);
      }
    }
  }

  lemma LetterFolding(a: char, b: char)
    ensures UpperChar(a) == UpperChar(b) <==> SameLetter(a, b)
    ensures LowerChar(a) == LowerChar(b) <==> SameLetter(a, b)
  {
  }

  /** btrim(s): removes spaces, and only spaces, at both ends. */
  function Btrim(s: string): string {
    if s == "" then ""
    else if s[0] == ' ' then Btrim(s[1..])
    else if s[|s| - 1] == ' ' then Btrim(s[..|s| - 1])
    else s
  }

  predicate AllSpaces(s: string) {
    forall i :: 0 <= i < |s| ==> s[i] == ' '
  }

  /** What is left of a string without the spaces at its ends. */
  ghost predicate Trimmed(s: string, t: string) {
    && (exists l, r :: AllSpaces(l) && AllSpaces(r) && s == l + t + r)
    && (t != "" ==> t[0] != ' ' && t[|t| - 1] != ' ')
  }

  lemma OneMoreSpace(s: string, t: string)
    requires Trimmed(s, t)
    ensures Trimmed([' '] + s, t) && Trimmed(s + [' '], t)
  {
    var l, r :| AllSpaces(l) && AllSpaces(r) && s == l + t + r;
    assert [' '] + s == ([' '] + l) + t + r && AllSpaces([' '] + l);
    assert s + [' '] == l + t + (r + [' ']) && AllSpaces(r + [' ']);
  }

  lemma {:induction false} BtrimTrims(s: string)
    ensures Trimmed(s, Btrim(s))
  {
    if s != "" && s[0] == ' ' {
      assert s == [' '] + s[1..];
      hide Trimmed;
      BtrimTrims(s[1..]);
      OneMoreSpace(s[1..], Btrim(s));
    } else if s != "" && s[|s| - 1] == ' ' {
      assert s == s[..|s| - 1] + [' '];
      hide Trimmed;
      BtrimTrims(s[..|s| - 1]);
      OneMoreSpace(s[..|s| - 1], Btrim(s));
    } else {
      assert AllSpaces("") && s == "" + s + "";
    }
  }

  const INT32_MIN := -0x8000_0000
  const INT32_MAX := 0x7fff_ffff

  /** Whether a value fits a column of type INTEGER, or survives a cast to it. */
  predicate FitsInteger(n: int)
    ensures FitsInteger(n) <==> -2147483648 <= n < 2147483648
  {
    INT32_MIN <= n <= INT32_MAX
  }
}
