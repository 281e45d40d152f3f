/** Players and the value-level operations on the roster: name trimming, the
    filter that removes a seat, and crediting one point to one seat. */
module Roster {
  import opened Catalog

  /** A seat at the table. Scores only ever grow from 0, so they are `nat`. */
  datatype Player = Player(name: string, score: nat, color: Color)

  /** The characters `String.prototype.trim` strips: the WhiteSpace and
      LineTerminator code points of ECMAScript (section 12.2 and 12.3 of
      ECMA-262), with the space separators (category Zs) listed out. */
  predicate IsWhite(c: char) {
    c == '\t' || c == '\U{000B}' || c == '\U{000C}' || c == '\U{FEFF}' ||
    c == ' ' || c == '\U{00A0}' || c == '\U{1680}' ||
    ('\U{2000}' <= c <= '\U{200A}') || c == '\U{202F}' || c == '\U{205F}' || c == '\U{3000}' ||
    c == '\n' || c == '\r' || c == '\U{2028}' || c == '\U{2029}'
  }

  /** `s` with its leading white space removed. */
  function TrimStart(s: string): (r: string)
    ensures |r| <= |s| && r == s[|s| - |r|..]
    ensures forall i :: 0 <= i < |s| - |r| ==> IsWhite(s[i])
    ensures r != [] ==> !IsWhite(r[0])
  {
    if |s| > 0 && IsWhite(s[0]) then TrimStart(s[1..]) else s
  }

  /** `s` with its trailing white space removed. */
  function TrimEnd(s: string): (r: string)
    ensures |r| <= |s| && r == s[..|r|]
    ensures forall i :: |r| <= i < |s| ==> IsWhite(s[i])
    ensures r != [] ==> !IsWhite(r[|r| - 1])
  {
    if |s| > 0 && IsWhite(s[|s| - 1]) then TrimEnd(s[..|s| - 1]) else s
  }

  /** `String.prototype.trim`. */
  function Trim(s: string): (r: string)
    ensures r != [] ==> !IsWhite(r[0]) && !IsWhite(r[|r| - 1])
  {
    TrimEnd(TrimStart(s))
  }

  /** The trimmed name is the slice of `s` between a white prefix and a white
      suffix (and, by the contract of `Trim`, neither starts nor ends in white
      space). */
  lemma TrimSlice(s: string)
    ensures var r, a := Trim(s), |s| - |TrimStart(s)|;
      a + |r| <= |s| && r == s[a..a + |r|] &&
      (forall i :: 0 <= i < a ==> IsWhite(s[i])) &&
      (forall i :: a + |r| <= i < |s| ==> IsWhite(s[i]))
  {
    var t := TrimStart(s);
    var r := TrimEnd(t);
    var a := |s| - |t|;
    assert t == s[a..];
    assert r == t[..|r|];
    assert r == s[a..a + |r|];
    forall i | a + |r| <= i < |s|
      ensures IsWhite(s[i])
    {
      assert s[i] == t[i - a];
    }
  }

  /** The trimmed name is empty exactly when the input is all white space:
      the one case in which `addPlayer` rejects a name. */
  lemma TrimEmptyIff(s: string)
    ensures Trim(s) == [] <==> forall i :: 0 <= i < |s| ==> IsWhite(s[i])
  {
    TrimSlice(s);
  }

  /** Trimming a trimmed name changes nothing. */
  lemma TrimIdempotent(s: string)
    ensures Trim(Trim(s)) == Trim(s)
  {
  }

  /** The roster filtered by `(_, i) => i !== index`: every seat whose
      position differs from `index` survives, in order. */
  function Without(ps: seq<Player>, index: int): seq<Player>
  {
    if ps == [] then []
    else Without(ps[..|ps| - 1], index) + (if |ps| - 1 != index then [ps[|ps| - 1]] else [])
  }

  /** Removing seat `index` leaves exactly the other seats in their order; an
      index outside the roster removes nothing. */
  lemma {:induction false} WithoutRemovesOne(ps: seq<Player>, index: int)
    ensures Without(ps, index) ==
      if 0 <= index < |ps| then ps[..index] + ps[index + 1..] else ps
  {
    if ps != [] {
      var init := ps[..|ps| - 1];
      WithoutRemovesOne(init, index);
      if 0 <= index < |ps| - 1 {
        assert init[..index] + init[index + 1..] + [ps[|ps| - 1]] == ps[..index] + ps[index + 1..];
      } else if index == |ps| - 1 {
        assert init == ps[..index] + ps[index + 1..];
      } else {
        assert init + [ps[|ps| - 1]] == ps;
      }
    }
  }

  /** The roster after seat `i` answered correctly: that seat gains exactly
      one point and nothing else about any seat changes. */
  function Credit(ps: seq<Player>, i: nat): (r: seq<Player>)
    requires i < |ps|
    ensures |r| == |ps|
    ensures r[i].name == ps[i].name && r[i].color == ps[i].color && r[i].score == ps[i].score + 1
    ensures forall j :: 0 <= j < |ps| && j != i ==> r[j] == ps[j]
  {
    ps[i := ps[i].(score := ps[i].score + 1)]
  }

  /** Sum of all scores. */
  function TotalScore(ps: seq<Player>): nat
  {
    if ps == [] then 0 else ps[0].score + TotalScore(ps[1..])
  }

  /** A correct answer adds exactly one point to the table as a whole. */
  lemma {:induction false} CreditAddsOnePoint(ps: seq<Player>, i: nat)
    requires i < |ps|
    ensures TotalScore(Credit(ps, i)) == TotalScore(ps) + 1
  {
    if i > 0 {
      assert Credit(ps, i)[1..] == Credit(ps[1..], i - 1);
      CreditAddsOnePoint(ps[1..], i - 1);
    } else {
      assert Credit(ps, i)[1..] == ps[1..];
    }
  }
}
