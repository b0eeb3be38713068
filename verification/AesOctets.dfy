/** The transformations of FIPS 197 octet by octet. */
module AesOctets {
  import opened Octet
  import opened AesTables
  import opened AesSpec
  import AesReference

  function Element(x: Column, r: nat): byte
    requires r < 4
  {
    if r == 0 then x.a else if r == 1 then x.b else if r == 2 then x.c else x.d
  }

  function ColumnOf(s: State, c: nat): Column
    requires c < 4
  {
    if c == 0 then s.c0 else if c == 1 then s.c1 else if c == 2 then s.c2 else s.c3
  }

  /** The octet of row `r` and column `c`. */
  function At(s: State, r: nat, c: nat): byte
    requires r < 4 && c < 4
  {
    Element(ColumnOf(s, c), r)
  }

  /** Section 3.4: the octets of a block fill the state column after column. */
  lemma {:induction false} StateHolds(s: seq<byte>, r: nat, c: nat)
    requires |s| == 16 && r < 4 && c < 4
    ensures At(AesReference.StateOf(s), r, c) == s[4 * c + r]
  {
    if c == 0 {} else if c == 1 {} else if c == 2 {} else {}
  }

  /** Section 5.1.1: every octet goes through the table by itself. */
  lemma {:induction false} OctetsSubstituted(s: State, r: nat, c: nat)
    requires r < 4 && c < 4
    ensures At(SubBytes(s), r, c) == SBox(At(s, r, c))
  {
    hide SBox;
    if c == 0 {} else if c == 1 {} else if c == 2 {} else {}
  }

  /** Section 5.1.2: row `r` moves by `r` columns to the left. */
  lemma {:induction false} RowsShift(s: State, r: nat, c: nat)
    requires r < 4 && c < 4
    ensures At(ShiftRows(s), r, c) == At(s, r, (c + r) % 4)
  {
    if r == 0 {} else if r == 1 {} else if r == 2 {} else {}
  }

  /** Section 5.1.3: 2, 3, 1 and 1 times the octets of the column, from the own row downwards. */
  lemma {:induction false} ColumnsMixed(s: State, r: nat, c: nat)
    requires r < 4 && c < 4
    ensures At(MixColumns(s), r, c) ==
            Plus(Plus(Times(At(s, r, c), 2), Times(At(s, (r + 1) % 4, c), 3)), Plus(At(s, (r + 2) % 4, c), At(s, (r + 3) % 4, c)))
  {
    hide Times;
    hide Plus;
    hide MixColumn;
    ColumnMixed(ColumnOf(s, c), r);
    assert ColumnOf(MixColumns(s), c) == MixColumn(ColumnOf(s, c));
  }

  lemma {:induction false} ColumnMixed(x: Column, r: nat)
    requires r < 4
    ensures Element(MixColumn(x), r) ==
            Plus(Plus(Times(Element(x, r), 2), Times(Element(x, (r + 1) % 4), 3)),
                 Plus(Element(x, (r + 2) % 4), Element(x, (r + 3) % 4)))
  {
    hide Times;
    hide Plus;
    if r == 0 {} else if r == 1 {} else if r == 2 {} else {}
  }

  /** Section 5.1.4: every octet is added to that of the round key. */
  lemma {:induction false} RoundKeyAdded(s: State, k: State, r: nat, c: nat)
    requires r < 4 && c < 4
    ensures At(AddRoundKey(s, k), r, c) == Plus(At(s, r, c), At(k, r, c))
  {
    hide Plus;
    if c == 0 {} else if c == 1 {} else if c == 2 {} else {}
  }
}
