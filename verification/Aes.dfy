/** AES-128 on values: the transformations of FIPS 197 and their inverses. */
module AesSpec {
  import opened Octet
  import opened AesTables

  /** A column of the state; `State` is the four columns. */
  datatype Column = Column(a: byte, b: byte, c: byte, d: byte)

  datatype State = State(c0: Column, c1: Column, c2: Column, c3: Column)

  const ROUNDS: nat := 10

  /** Addition in the field. */
  function Plus(x: byte, y: byte): byte {
    x ^ y
  }

  function Xor(x: Column, y: Column): Column {
    Column(Plus(x.a, y.a), Plus(x.b, y.b), Plus(x.c, y.c), Plus(x.d, y.d))
  }

  function AddRoundKey(s: State, k: State): State {
    State(Xor(s.c0, k.c0), Xor(s.c1, k.c1), Xor(s.c2, k.c2), Xor(s.c3, k.c3))
  }

  function SubWord(x: Column): Column {
    Column(SBox(x.a), SBox(x.b), SBox(x.c), SBox(x.d))
  }

  function InvSubWord(x: Column): Column {
    Column(InvSBox(x.a), InvSBox(x.b), InvSBox(x.c), InvSBox(x.d))
  }

  function SubBytes(s: State): State {
    State(SubWord(s.c0), SubWord(s.c1), SubWord(s.c2), SubWord(s.c3))
  }

  function InvSubBytes(s: State): State {
    State(InvSubWord(s.c0), InvSubWord(s.c1), InvSubWord(s.c2), InvSubWord(s.c3))
  }

  /** Row r moves r columns to the left. */
  function ShiftRows(s: State): State {
    State(Column(s.c0.a, s.c1.b, s.c2.c, s.c3.d), Column(s.c1.a, s.c2.b, s.c3.c, s.c0.d),
          Column(s.c2.a, s.c3.b, s.c0.c, s.c1.d), Column(s.c3.a, s.c0.b, s.c1.c, s.c2.d))
  }

  function InvShiftRows(s: State): State {
    State(Column(s.c0.a, s.c3.b, s.c2.c, s.c1.d), Column(s.c1.a, s.c0.b, s.c3.c, s.c2.d),
          Column(s.c2.a, s.c1.b, s.c0.c, s.c3.d), Column(s.c3.a, s.c2.b, s.c1.c, s.c0.d))
  }

  /** Section 5.1.3 of FIPS 197: an element of a column times a fixed polynomial. The elements below
      it, in cyclic order, come after it. */
  function Mixed(a: byte, b: byte, c: byte, d: byte): byte {
    Plus(Plus(Times(a, 2), Times(b, 3)), Plus(c, d))
  }

  /** Section 5.3.3: the same for the inverse polynomial. */
  function Unmixed(a: byte, b: byte, c: byte, d: byte): byte {
    Plus(Plus(Times(a, 0x0e), Times(b, 0x0b)), Plus(Times(c, 0x0d), Times(d, 0x09)))
  }

  function MixColumn(x: Column): Column {
    Column(Mixed(x.a, x.b, x.c, x.d), Mixed(x.b, x.c, x.d, x.a), Mixed(x.c, x.d, x.a, x.b), Mixed(x.d, x.a, x.b, x.c))
  }

  function InvMixColumn(x: Column): Column {
    Column(Unmixed(x.a, x.b, x.c, x.d), Unmixed(x.b, x.c, x.d, x.a), Unmixed(x.c, x.d, x.a, x.b), Unmixed(x.d, x.a, x.b, x.c))
  }

  function MixColumns(s: State): State {
    State(MixColumn(s.c0), MixColumn(s.c1), MixColumn(s.c2), MixColumn(s.c3))
  }

  function InvMixColumns(s: State): State {
    State(InvMixColumn(s.c0), InvMixColumn(s.c1), InvMixColumn(s.c2), InvMixColumn(s.c3))
  }

  // ---- each transformation and its inverse -----------------------------------------------------------

  lemma {:induction false} SubInverts(x: Column)
    ensures InvSubWord(SubWord(x)) == x && SubWord(InvSubWord(x)) == x
  {
    hide SBox;
    hide InvSBox;
    TablesInvert(x.a);
    TablesInvert(x.b);
    TablesInvert(x.c);
    TablesInvert(x.d);
  }

  lemma {:induction false} PlusAssociates(x: byte, y: byte, z: byte)
    ensures Plus(Plus(x, y), z) == Plus(x, Plus(y, z))
  {
  }

  lemma {:induction false} PlusCommutes(x: byte, y: byte)
    ensures Plus(x, y) == Plus(y, x)
  {
  }

  lemma {:induction false} PlusCancels(x: byte, y: byte)
    ensures Plus(Plus(x, y), y) == x && Plus(0, x) == x && Plus(x, 0) == x
  {
  }

  lemma {:induction false} Interchange(p: byte, p': byte, q: byte, q': byte)
    ensures Plus(Plus(p, p'), Plus(q, q')) == Plus(Plus(p, q), Plus(p', q'))
  {
    hide Plus;
    PlusAssociates(p, p', Plus(q, q'));
    PlusAssociates(p', q, q');
    PlusCommutes(p', q);
    PlusAssociates(q, p', q');
    PlusAssociates(p, q, Plus(p', q'));
  }

  lemma {:induction false} XtimeLinear(x: byte, y: byte)
    ensures Xtime(Plus(x, y)) == Plus(Xtime(x), Xtime(y))
  {
  }

  function Xtime2(x: byte): byte {
    Xtime(Xtime(x))
  }

  function Xtime3(x: byte): byte {
    Xtime(Xtime2(x))
  }

  /** The products the two polynomials use, by doubling. */
  lemma {:induction false} Products(x: byte)
    ensures Times(x, 2) == Xtime(x) && Times(x, 3) == Plus(x, Xtime(x))
    ensures Times(x, 0x09) == Plus(x, Xtime3(x))
    ensures Times(x, 0x0b) == Plus(Plus(x, Xtime(x)), Xtime3(x))
    ensures Times(x, 0x0d) == Plus(Plus(x, Xtime2(x)), Xtime3(x))
    ensures Times(x, 0x0e) == Plus(Plus(Xtime(x), Xtime2(x)), Xtime3(x))
  {
  }

  lemma {:induction false} ProductsLinear(x: byte, y: byte)
    ensures Times(Plus(x, y), 2) == Plus(Times(x, 2), Times(y, 2))
    ensures Times(Plus(x, y), 3) == Plus(Times(x, 3), Times(y, 3))
    ensures Times(Plus(x, y), 0x09) == Plus(Times(x, 0x09), Times(y, 0x09))
    ensures Times(Plus(x, y), 0x0b) == Plus(Times(x, 0x0b), Times(y, 0x0b))
    ensures Times(Plus(x, y), 0x0d) == Plus(Times(x, 0x0d), Times(y, 0x0d))
    ensures Times(Plus(x, y), 0x0e) == Plus(Times(x, 0x0e), Times(y, 0x0e))
  {
    hide Plus;
    hide Xtime;
    hide Times;
    Products(x);
    Products(y);
    Products(Plus(x, y));
    XtimeLinear(x, y);
    XtimeLinear(Xtime(x), Xtime(y));
    XtimeLinear(Xtime2(x), Xtime2(y));
    Interchange(x, y, Xtime(x), Xtime(y));
    Interchange(x, y, Xtime2(x), Xtime2(y));
    Interchange(x, y, Xtime3(x), Xtime3(y));
    Interchange(Xtime(x), Xtime(y), Xtime2(x), Xtime2(y));
    Interchange(Plus(x, Xtime(x)), Plus(y, Xtime(y)), Xtime3(x), Xtime3(y));
    Interchange(Plus(x, Xtime2(x)), Plus(y, Xtime2(y)), Xtime3(x), Xtime3(y));
    Interchange(Plus(Xtime(x), Xtime2(x)), Plus(Xtime(y), Xtime2(y)), Xtime3(x), Xtime3(y));
  }

  lemma {:induction false} MixedLinear(a: byte, b: byte, c: byte, d: byte, a': byte, b': byte, c': byte, d': byte)
    ensures Mixed(Plus(a, a'), Plus(b, b'), Plus(c, c'), Plus(d, d')) == Plus(Mixed(a, b, c, d), Mixed(a', b', c', d'))
  {
    hide Plus;
    hide Times;
    ProductsLinear(a, a');
    ProductsLinear(b, b');
    Interchange(Times(a, 2), Times(a', 2), Times(b, 3), Times(b', 3));
    Interchange(c, c', d, d');
    Interchange(Plus(Times(a, 2), Times(b, 3)), Plus(Times(a', 2), Times(b', 3)), Plus(c, d), Plus(c', d'));
  }

  lemma {:induction false} UnmixedLinear(a: byte, b: byte, c: byte, d: byte, a': byte, b': byte, c': byte, d': byte)
    ensures Unmixed(Plus(a, a'), Plus(b, b'), Plus(c, c'), Plus(d, d')) == Plus(Unmixed(a, b, c, d), Unmixed(a', b', c', d'))
  {
    hide Plus;
    hide Times;
    ProductsLinear(a, a');
    ProductsLinear(b, b');
    ProductsLinear(c, c');
    ProductsLinear(d, d');
    Interchange(Times(a, 0x0e), Times(a', 0x0e), Times(b, 0x0b), Times(b', 0x0b));
    Interchange(Times(c, 0x0d), Times(c', 0x0d), Times(d, 0x09), Times(d', 0x09));
    Interchange(Plus(Times(a, 0x0e), Times(b, 0x0b)), Plus(Times(a', 0x0e), Times(b', 0x0b)),
                Plus(Times(c, 0x0d), Times(d, 0x09)), Plus(Times(c', 0x0d), Times(d', 0x09)));
  }

  lemma {:induction false} MixLinear(x: Column, y: Column)
    ensures MixColumn(Xor(x, y)) == Xor(MixColumn(x), MixColumn(y))
    ensures InvMixColumn(Xor(x, y)) == Xor(InvMixColumn(x), InvMixColumn(y))
  {
    hide Mixed;
    hide Unmixed;
    hide Plus;
    MixedLinear(x.a, x.b, x.c, x.d, y.a, y.b, y.c, y.d);
    MixedLinear(x.b, x.c, x.d, x.a, y.b, y.c, y.d, y.a);
    MixedLinear(x.c, x.d, x.a, x.b, y.c, y.d, y.a, y.b);
    MixedLinear(x.d, x.a, x.b, x.c, y.d, y.a, y.b, y.c);
    UnmixedLinear(x.a, x.b, x.c, x.d, y.a, y.b, y.c, y.d);
    UnmixedLinear(x.b, x.c, x.d, x.a, y.b, y.c, y.d, y.a);
    UnmixedLinear(x.c, x.d, x.a, x.b, y.c, y.d, y.a, y.b);
    UnmixedLinear(x.d, x.a, x.b, x.c, y.d, y.a, y.b, y.c);
  }

  lemma {:induction false} ZeroProducts()
    ensures Times(0, 2) == 0 && Times(0, 3) == 0
    ensures Times(0, 0x09) == 0 && Times(0, 0x0b) == 0 && Times(0, 0x0d) == 0 && Times(0, 0x0e) == 0
  {
  }

  /** A column with one element: the columns of the two matrices. */
  lemma {:induction false} MixOne(a: byte)
    ensures Mixed(a, 0, 0, 0) == Times(a, 2) && Mixed(0, a, 0, 0) == Times(a, 3)
    ensures Mixed(0, 0, a, 0) == a && Mixed(0, 0, 0, a) == a
    ensures Unmixed(a, 0, 0, 0) == Times(a, 0x0e) && Unmixed(0, a, 0, 0) == Times(a, 0x0b)
    ensures Unmixed(0, 0, a, 0) == Times(a, 0x0d) && Unmixed(0, 0, 0, a) == Times(a, 0x09)
  {
    hide Times;
    hide Plus;
    ZeroProducts();
    PlusCancels(a, 0);
    PlusCancels(0, 0);
    PlusCancels(Times(a, 2), 0);
    PlusCancels(Times(a, 3), 0);
    PlusCancels(Times(a, 0x0e), 0);
    PlusCancels(Times(a, 0x0b), 0);
    PlusCancels(Times(a, 0x0d), 0);
    PlusCancels(Times(a, 0x09), 0);
  }

  /** The product of the two polynomials is 1, so on one element all coefficients but one cancel. */
  lemma {:induction false} UnmixOfMixed(a: byte)
    ensures var p, q := Times(a, 2), Times(a, 3);
            Unmixed(p, a, a, q) == a && Unmixed(a, a, q, p) == 0 && Unmixed(a, q, p, a) == 0 && Unmixed(q, p, a, a) == 0
  {
  }

  lemma {:induction false} MixOfUnmixed(a: byte)
    ensures var p, q, r, s := Times(a, 0x0e), Times(a, 0x0b), Times(a, 0x0d), Times(a, 0x09);
            Mixed(p, s, r, q) == a && Mixed(s, r, q, p) == 0 && Mixed(r, q, p, s) == 0 && Mixed(q, p, s, r) == 0
  {
  }

  lemma {:induction false} MixInvertsOne(a: byte)
    ensures var c := Column(a, 0, 0, 0); InvMixColumn(MixColumn(c)) == c && MixColumn(InvMixColumn(c)) == c
    ensures var c := Column(0, a, 0, 0); InvMixColumn(MixColumn(c)) == c && MixColumn(InvMixColumn(c)) == c
    ensures var c := Column(0, 0, a, 0); InvMixColumn(MixColumn(c)) == c && MixColumn(InvMixColumn(c)) == c
    ensures var c := Column(0, 0, 0, a); InvMixColumn(MixColumn(c)) == c && MixColumn(InvMixColumn(c)) == c
  {
    hide Times;
    hide Mixed;
    hide Unmixed;
    MixOne(a);
    UnmixOfMixed(a);
    MixOfUnmixed(a);
  }

  /** MixColumns and InvMixColumns undo each other, in both orders: by linearity it is enough that they
      do on columns with one element. */
  lemma {:induction false} MixInverts(x: Column)
    ensures InvMixColumn(MixColumn(x)) == x && MixColumn(InvMixColumn(x)) == x
  {
    hide MixColumn;
    hide InvMixColumn;
    var a, b, c, d := Column(x.a, 0, 0, 0), Column(0, x.b, 0, 0), Column(0, 0, x.c, 0), Column(0, 0, 0, x.d);
    var ab, cd := Xor(a, b), Xor(c, d);
    Decompose(x);
    hide Xor;
    MixInvertsOne(x.a);
    MixInvertsOne(x.b);
    MixInvertsOne(x.c);
    MixInvertsOne(x.d);
    InvertsSum(a, b);
    InvertsSum(c, d);
    InvertsSum(ab, cd);
  }

  lemma {:induction false} InvertsSum(x: Column, y: Column)
    requires InvMixColumn(MixColumn(x)) == x && MixColumn(InvMixColumn(x)) == x
    requires InvMixColumn(MixColumn(y)) == y && MixColumn(InvMixColumn(y)) == y
    ensures InvMixColumn(MixColumn(Xor(x, y))) == Xor(x, y) && MixColumn(InvMixColumn(Xor(x, y))) == Xor(x, y)
  {
    hide MixColumn;
    hide InvMixColumn;
    hide Xor;
    MixLinear(x, y);
    MixLinear(MixColumn(x), MixColumn(y));
    MixLinear(InvMixColumn(x), InvMixColumn(y));
  }

  lemma {:induction false} Decompose(x: Column)
    ensures Xor(Xor(Column(x.a, 0, 0, 0), Column(0, x.b, 0, 0)), Xor(Column(0, 0, x.c, 0), Column(0, 0, 0, x.d))) == x
  {
    hide Plus;
    PlusCancels(x.a, 0);
    PlusCancels(x.b, 0);
    PlusCancels(x.c, 0);
    PlusCancels(x.d, 0);
    PlusCancels(0, 0);
  }

  lemma {:induction false} KeyInverts(s: State, k: State)
    ensures AddRoundKey(AddRoundKey(s, k), k) == s
  {
    XorTwice(s.c0, k.c0);
    XorTwice(s.c1, k.c1);
    XorTwice(s.c2, k.c2);
    XorTwice(s.c3, k.c3);
  }

  lemma {:induction false} XorTwice(x: Column, y: Column)
    ensures Xor(Xor(x, y), y) == x
  {
    hide Plus;
    PlusCancels(x.a, y.a);
    PlusCancels(x.b, y.b);
    PlusCancels(x.c, y.c);
    PlusCancels(x.d, y.d);
  }

  /** The three keyless transformations and their inverses, on the whole state. */
  lemma {:induction false} StepsInvert(s: State)
    ensures InvSubBytes(SubBytes(s)) == s && SubBytes(InvSubBytes(s)) == s
    ensures InvShiftRows(ShiftRows(s)) == s && ShiftRows(InvShiftRows(s)) == s
    ensures InvMixColumns(MixColumns(s)) == s && MixColumns(InvMixColumns(s)) == s
  {
    hide SubWord;
    hide InvSubWord;
    hide MixColumn;
    hide InvMixColumn;
    SubInverts(s.c0);
    SubInverts(s.c1);
    SubInverts(s.c2);
    SubInverts(s.c3);
    MixInverts(s.c0);
    MixInverts(s.c1);
    MixInverts(s.c2);
    MixInverts(s.c3);
  }

  // ---- key schedule and cipher ----------------------------------------------------------------------

  function RotWord(x: Column): Column {
    Column(x.b, x.c, x.d, x.a)
  }

  /** Powers of x: the first element of the round constant word of section 5.2. */
  function Rcon(i: nat): byte {
    if i <= 1 then 1 else Xtime(Rcon(i - 1))
  }

  /** Word `i` of the key schedule, section 5.2. */
  function Word(key: State, i: nat): Column {
    if i == 0 then key.c0
    else if i == 1 then key.c1
    else if i == 2 then key.c2
    else if i == 3 then key.c3
    else
      var temp := Word(key, i - 1);
      Xor(Word(key, i - 4), if i % 4 == 0 then Xor(SubWord(RotWord(temp)), Column(Rcon(i / 4), 0, 0, 0)) else temp)
  }

  function RoundKey(key: State, round: nat): State {
    State(Word(key, 4 * round), Word(key, 4 * round + 1), Word(key, 4 * round + 2), Word(key, 4 * round + 3))
  }

  /** The state after the first key addition and `n` full rounds. */
  function Rounds(key: State, s: State, n: nat): State {
    if n == 0 then AddRoundKey(s, RoundKey(key, 0))
    else AddRoundKey(MixColumns(ShiftRows(SubBytes(Rounds(key, s, n - 1)))), RoundKey(key, n))
  }

  /** Section 5.1. */
  function Cipher(key: State, s: State): State {
    AddRoundKey(ShiftRows(SubBytes(Rounds(key, s, ROUNDS - 1))), RoundKey(key, ROUNDS))
  }

  /** The state after the key addition with the last key and the inverse rounds down to number `n`. */
  function InvRounds(key: State, s: State, n: nat): State
    requires 1 <= n <= ROUNDS
    decreases ROUNDS - n
  {
    if n == ROUNDS then AddRoundKey(s, RoundKey(key, ROUNDS))
    else InvMixColumns(AddRoundKey(InvSubBytes(InvShiftRows(InvRounds(key, s, n + 1))), RoundKey(key, n)))
  }

  /** Section 5.3. */
  function InvCipher(key: State, s: State): State {
    AddRoundKey(InvSubBytes(InvShiftRows(InvRounds(key, s, 1))), RoundKey(key, 0))
  }

  /** Each inverse round takes back one round. */
  lemma {:induction false} RoundsUndone(key: State, s: State, n: nat)
    requires 1 <= n <= ROUNDS
    ensures InvRounds(key, Cipher(key, s), n) == ShiftRows(SubBytes(Rounds(key, s, n - 1)))
    decreases ROUNDS - n
  {
    hide SubBytes;
    hide ShiftRows;
    hide MixColumns;
    hide InvSubBytes;
    hide InvShiftRows;
    hide InvMixColumns;
    hide AddRoundKey;
    hide RoundKey;
    var prev := Rounds(key, s, n - 1);
    if n == ROUNDS {
      KeyInverts(ShiftRows(SubBytes(prev)), RoundKey(key, ROUNDS));
    } else {
      RoundsUndone(key, s, n + 1);
      var mixed := MixColumns(ShiftRows(SubBytes(prev)));
      var after := Rounds(key, s, n);
      StepsInvert(SubBytes(after));
      StepsInvert(after);
      KeyInverts(mixed, RoundKey(key, n));
      StepsInvert(ShiftRows(SubBytes(prev)));
    }
  }

  /** For every key and block, deciphering undoes ciphering. */
  lemma {:induction false} DecipherCipher(key: State, s: State)
    ensures InvCipher(key, Cipher(key, s)) == s
  {
    hide SubBytes;
    hide ShiftRows;
    hide InvSubBytes;
    hide InvShiftRows;
    hide AddRoundKey;
    hide Cipher;
    RoundsUndone(key, s, 1);
    var first := AddRoundKey(s, RoundKey(key, 0));
    StepsInvert(SubBytes(first));
    StepsInvert(first);
    KeyInverts(s, RoundKey(key, 0));
  }

  lemma {:induction false} InvRoundsUndone(key: State, s: State, n: nat)
    requires n < ROUNDS
    ensures Rounds(key, InvCipher(key, s), n) == InvSubBytes(InvShiftRows(InvRounds(key, s, n + 1)))
  {
    hide SubBytes;
    hide ShiftRows;
    hide MixColumns;
    hide InvSubBytes;
    hide InvShiftRows;
    hide InvMixColumns;
    hide AddRoundKey;
    hide RoundKey;
    var next := InvSubBytes(InvShiftRows(InvRounds(key, s, n + 1)));
    if n == 0 {
      KeyInverts(next, RoundKey(key, 0));
    } else {
      InvRoundsUndone(key, s, n - 1);
      var keyed := AddRoundKey(next, RoundKey(key, n));
      var before := InvRounds(key, s, n);
      StepsInvert(InvShiftRows(before));
      StepsInvert(before);
      StepsInvert(keyed);
      KeyInverts(next, RoundKey(key, n));
    }
  }

  /** For every key and block, ciphering undoes deciphering. */
  lemma {:induction false} CipherDecipher(key: State, s: State)
    ensures Cipher(key, InvCipher(key, s)) == s
  {
    hide SubBytes;
    hide ShiftRows;
    hide InvSubBytes;
    hide InvShiftRows;
    hide AddRoundKey;
    hide InvCipher;
    InvRoundsUndone(key, s, ROUNDS - 1);
    var last := AddRoundKey(s, RoundKey(key, ROUNDS));
    StepsInvert(InvShiftRows(last));
    StepsInvert(last);
    KeyInverts(s, RoundKey(key, ROUNDS));
  }
}
