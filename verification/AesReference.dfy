/** The reference cipher: the state is sixteen octets, column after column, overwritten step by step. */
module AesReference {
  import opened Octet
  import opened AesTables
  import opened AesSpec

  const KEY_OCTETS: nat := 16
  const SCHEDULE_OCTETS: nat := 176

  /** The table of round constants, as far as ten rounds use it. */
  const RCON: seq<byte> := [0x8d, 0x01, 0x02, 0x04, 0x08, 0x10, 0x20, 0x40, 0x80, 0x1b, 0x36]

  function ColumnAt(s: seq<byte>, i: nat): Column
    requires 4 * i + 4 <= |s|
  {
    Column(s[4 * i], s[4 * i + 1], s[4 * i + 2], s[4 * i + 3])
  }

  function StateOf(s: seq<byte>): State
    requires |s| == 16
  {
    State(ColumnAt(s, 0), ColumnAt(s, 1), ColumnAt(s, 2), ColumnAt(s, 3))
  }

  /** Two sequences with the same state are the same. */
  lemma {:induction false} StateDetermines(s: seq<byte>, t: seq<byte>)
    requires |s| == |t| == 16 && StateOf(s) == StateOf(t)
    ensures s == t
  {
    assert forall i :: 0 <= i < 4 ==> ColumnAt(s, i) == ColumnAt(t, i) by {
      assert ColumnAt(s, 0) == ColumnAt(t, 0);
    }
    forall k | 0 <= k < 16 ensures s[k] == t[k] {
      var i := k / 4;
      assert ColumnAt(s, i) == ColumnAt(t, i);
      assert k == 4 * i || k == 4 * i + 1 || k == 4 * i + 2 || k == 4 * i + 3;
    }
  }

  lemma {:induction false} RconTable(i: nat)
    requires 1 <= i <= 10
    ensures RCON[i] == Rcon(i)
  {
    if i > 1 {
      RconTable(i - 1);
      assert Xtime(RCON[i - 1]) == RCON[i];
    }
  }

  method SubBytes(s: array<byte>)
    requires s.Length == 16
    modifies s
    ensures StateOf(s[..]) == AesSpec.SubBytes(StateOf(old(s[..])))
  {
    hide SBox;
    var i := 0;
    while i < 4
      invariant 0 <= i <= 4
      invariant forall k :: 0 <= k < 16 ==> s[k] == if k % 4 < i then SBox(old(s[k])) else old(s[k])
    {
      var j := 0;
      while j < 4
        invariant 0 <= j <= 4
        invariant forall k :: 0 <= k < 16 ==>
          s[k] == if k % 4 < i || (k % 4 == i && k / 4 < j) then SBox(old(s[k])) else old(s[k])
      {
        s[4 * j + i] := SBox(s[4 * j + i]);
        j := j + 1;
      }
      i := i + 1;
    }
  }

  method InvSubBytes(s: array<byte>)
    requires s.Length == 16
    modifies s
    ensures StateOf(s[..]) == AesSpec.InvSubBytes(StateOf(old(s[..])))
  {
    hide InvSBox;
    var i := 0;
    while i < 4
      invariant 0 <= i <= 4
      invariant forall k :: 0 <= k < 16 ==> s[k] == if k % 4 < i then InvSBox(old(s[k])) else old(s[k])
    {
      var j := 0;
      while j < 4
        invariant 0 <= j <= 4
        invariant forall k :: 0 <= k < 16 ==>
          s[k] == if k % 4 < i || (k % 4 == i && k / 4 < j) then InvSBox(old(s[k])) else old(s[k])
      {
        s[4 * j + i] := InvSBox(s[4 * j + i]);
        j := j + 1;
      }
      i := i + 1;
    }
  }

  method ShiftRows(s: array<byte>)
    requires s.Length == 16
    modifies s
    ensures StateOf(s[..]) == AesSpec.ShiftRows(StateOf(old(s[..])))
  {
    var temp := s[1];
    s[1] := s[5];
    s[5] := s[9];
    s[9] := s[13];
    s[13] := temp;

    temp := s[2];
    s[2] := s[10];
    s[10] := temp;
    temp := s[6];
    s[6] := s[14];
    s[14] := temp;

    temp := s[3];
    s[3] := s[15];
    s[15] := s[11];
    s[11] := s[7];
    s[7] := temp;
  }

  method InvShiftRows(s: array<byte>)
    requires s.Length == 16
    modifies s
    ensures StateOf(s[..]) == AesSpec.InvShiftRows(StateOf(old(s[..])))
  {
    var temp := s[13];
    s[13] := s[9];
    s[9] := s[5];
    s[5] := s[1];
    s[1] := temp;

    temp := s[2];
    s[2] := s[10];
    s[10] := temp;
    temp := s[6];
    s[6] := s[14];
    s[14] := temp;

    temp := s[3];
    s[3] := s[7];
    s[7] := s[11];
    s[11] := s[15];
    s[15] := temp;
  }

  method AddRoundKey(roundKey: array<byte>, s: array<byte>, round: nat)
    requires s.Length == 16 && roundKey.Length == SCHEDULE_OCTETS && round <= ROUNDS && s != roundKey
    modifies s
    ensures StateOf(s[..]) == AesSpec.AddRoundKey(StateOf(old(s[..])), StateOf(roundKey[16 * round..16 * round + 16]))
  {
    hide Plus;
    ghost var key := roundKey[16 * round..16 * round + 16];
    var i := 0;
    while i < 4
      invariant 0 <= i <= 4
      invariant forall k :: 0 <= k < 16 ==> s[k] == if k < 4 * i then Plus(old(s[k]), key[k]) else old(s[k])
    {
      var j := 0;
      while j < 4
        invariant 0 <= j <= 4
        invariant forall k :: 0 <= k < 16 ==> s[k] == if k < 4 * i + j then Plus(old(s[k]), key[k]) else old(s[k])
      {
        assert key[4 * i + j] == roundKey[16 * round + 4 * i + j];
        s[4 * i + j] := Plus(s[4 * i + j], roundKey[16 * round + 4 * i + j]);
        j := j + 1;
      }
      i := i + 1;
    }
  }

  // ---- the mixing of columns --------------------------------------------------------------------------

  lemma {:induction false} PlusTwice(a: byte, p: byte, y: byte)
    ensures Plus(a, Plus(p, Plus(a, y))) == Plus(p, y)
  {
    hide Plus;
    PlusAssociates(p, a, y);
    PlusCommutes(p, a);
    PlusAssociates(a, p, y);
    PlusCommutes(a, Plus(a, Plus(p, y)));
    PlusCommutes(a, Plus(p, y));
    PlusCancels(Plus(p, y), a);
  }

  /** The sum of a column may start anywhere. */
  lemma {:induction false} SumIsCyclic(a: byte, b: byte, c: byte, d: byte)
    ensures Plus(Plus(Plus(a, b), c), d) == Plus(Plus(Plus(b, c), d), a)
    ensures Plus(Plus(Plus(a, b), c), d) == Plus(a, Plus(b, Plus(c, d)))
  {
    hide Plus;
    PlusAssociates(Plus(a, b), c, d);
    PlusAssociates(a, b, Plus(c, d));
    PlusCommutes(a, Plus(b, Plus(c, d)));
    PlusAssociates(b, c, d);
  }

  /** How the C code forms an element of a mixed column: one doubling, and the sum of the column. */
  lemma {:induction false} MixByDoubling(a: byte, b: byte, c: byte, d: byte)
    ensures Plus(a, Plus(Xtime(Plus(a, b)), Plus(Plus(Plus(a, b), c), d))) == Mixed(a, b, c, d)
  {
    hide Plus;
    hide Times;
    hide Xtime;
    Products(a);
    Products(b);
    XtimeLinear(a, b);
    SumIsCyclic(a, b, c, d);
    PlusTwice(a, Plus(Xtime(a), Xtime(b)), Plus(b, Plus(c, d)));
    PlusCommutes(b, Xtime(b));
    PlusAssociates(Xtime(a), Xtime(b), b);
    PlusAssociates(Plus(Xtime(a), Xtime(b)), b, Plus(c, d));
  }

  method MixColumn(s: array<byte>, i: nat)
    requires s.Length == 16 && i < 4
    modifies s
    ensures ColumnAt(s[..], i) == AesSpec.MixColumn(ColumnAt(old(s[..]), i))
    ensures forall k :: 0 <= k < 16 && !(4 * i <= k < 4 * i + 4) ==> s[k] == old(s[k])
  {
    hide Plus;
    hide Xtime;
    hide Mixed;
    ghost var a, b, c, d := s[4 * i], s[4 * i + 1], s[4 * i + 2], s[4 * i + 3];
    MixByDoubling(a, b, c, d);
    MixByDoubling(b, c, d, a);
    MixByDoubling(c, d, a, b);
    MixByDoubling(d, a, b, c);
    SumIsCyclic(a, b, c, d);
    SumIsCyclic(b, c, d, a);
    SumIsCyclic(c, d, a, b);
    var t := s[4 * i];
    var sum := Plus(Plus(Plus(s[4 * i], s[4 * i + 1]), s[4 * i + 2]), s[4 * i + 3]);
    var tm := Xtime(Plus(s[4 * i], s[4 * i + 1]));
    s[4 * i] := Plus(s[4 * i], Plus(tm, sum));
    tm := Xtime(Plus(s[4 * i + 1], s[4 * i + 2]));
    s[4 * i + 1] := Plus(s[4 * i + 1], Plus(tm, sum));
    tm := Xtime(Plus(s[4 * i + 2], s[4 * i + 3]));
    s[4 * i + 2] := Plus(s[4 * i + 2], Plus(tm, sum));
    tm := Xtime(Plus(s[4 * i + 3], t));
    s[4 * i + 3] := Plus(s[4 * i + 3], Plus(tm, sum));
  }

  method MixColumns(s: array<byte>)
    requires s.Length == 16
    modifies s
    ensures StateOf(s[..]) == AesSpec.MixColumns(StateOf(old(s[..])))
  {
    hide AesSpec.MixColumn;
    var i := 0;
    while i < 4
      invariant 0 <= i <= 4
      invariant forall c :: 0 <= c < 4 ==>
        ColumnAt(s[..], c) == if c < i then AesSpec.MixColumn(ColumnAt(old(s[..]), c)) else ColumnAt(old(s[..]), c)
    {
      MixColumn(s, i);
      i := i + 1;
    }
  }

  /** The multiplication of the C code handles five bits of `y`. */
  function Multiply(x: byte, y: byte): byte {
    ((y & 1) * x) ^ (((y >> 1) & 1) * Xtime(x)) ^ (((y >> 2) & 1) * Xtime(Xtime(x))) ^
    (((y >> 3) & 1) * Xtime(Xtime(Xtime(x)))) ^ (((y >> 4) & 1) * Xtime(Xtime(Xtime(Xtime(x)))))
  }

  lemma {:induction false} MultiplyIsTimes(x: byte)
    ensures Multiply(x, 0x0e) == Times(x, 0x0e) && Multiply(x, 0x0b) == Times(x, 0x0b)
    ensures Multiply(x, 0x0d) == Times(x, 0x0d) && Multiply(x, 0x09) == Times(x, 0x09)
  {
  }

  function Sum(p: byte, q: byte, r: byte, s: byte): byte {
    Plus(Plus(Plus(p, q), r), s)
  }

  /** The four products of an element, summed in the order of the columns of the matrix. */
  lemma {:induction false} UnmixedIsSum(a: byte, b: byte, c: byte, d: byte)
    ensures var p, q, r, s := Multiply(a, 0x0e), Multiply(b, 0x0b), Multiply(c, 0x0d), Multiply(d, 0x09);
            && Sum(p, q, r, s) == Unmixed(a, b, c, d) && Sum(s, p, q, r) == Unmixed(a, b, c, d)
            && Sum(r, s, p, q) == Unmixed(a, b, c, d) && Sum(q, r, s, p) == Unmixed(a, b, c, d)
  {
    hide Plus;
    hide Multiply;
    hide Times;
    MultiplyIsTimes(a);
    MultiplyIsTimes(b);
    MultiplyIsTimes(c);
    MultiplyIsTimes(d);
    var p, q, r, s := Multiply(a, 0x0e), Multiply(b, 0x0b), Multiply(c, 0x0d), Multiply(d, 0x09);
    PlusAssociates(Plus(p, q), r, s);
    SumIsCyclic(p, q, r, s);
    SumIsCyclic(q, r, s, p);
    SumIsCyclic(r, s, p, q);
  }

  method InvMixColumn(s: array<byte>, i: nat)
    requires s.Length == 16 && i < 4
    modifies s
    ensures ColumnAt(s[..], i) == AesSpec.InvMixColumn(ColumnAt(old(s[..]), i))
    ensures forall k :: 0 <= k < 16 && !(4 * i <= k < 4 * i + 4) ==> s[k] == old(s[k])
  {
    hide Sum;
    hide Unmixed;
    hide Multiply;
    var a, b, c, d := s[4 * i], s[4 * i + 1], s[4 * i + 2], s[4 * i + 3];
    UnmixedIsSum(a, b, c, d);
    UnmixedIsSum(b, c, d, a);
    UnmixedIsSum(c, d, a, b);
    UnmixedIsSum(d, a, b, c);
    s[4 * i] := Sum(Multiply(a, 0x0e), Multiply(b, 0x0b), Multiply(c, 0x0d), Multiply(d, 0x09));
    s[4 * i + 1] := Sum(Multiply(a, 0x09), Multiply(b, 0x0e), Multiply(c, 0x0b), Multiply(d, 0x0d));
    s[4 * i + 2] := Sum(Multiply(a, 0x0d), Multiply(b, 0x09), Multiply(c, 0x0e), Multiply(d, 0x0b));
    s[4 * i + 3] := Sum(Multiply(a, 0x0b), Multiply(b, 0x0d), Multiply(c, 0x09), Multiply(d, 0x0e));
  }

  method InvMixColumns(s: array<byte>)
    requires s.Length == 16
    modifies s
    ensures StateOf(s[..]) == AesSpec.InvMixColumns(StateOf(old(s[..])))
  {
    hide AesSpec.InvMixColumn;
    var i := 0;
    while i < 4
      invariant 0 <= i <= 4
      invariant forall c :: 0 <= c < 4 ==>
        ColumnAt(s[..], c) == if c < i then AesSpec.InvMixColumn(ColumnAt(old(s[..]), c)) else ColumnAt(old(s[..]), c)
    {
      InvMixColumn(s, i);
      i := i + 1;
    }
  }

  // ---- the key schedule -------------------------------------------------------------------------------

  /** The words of the schedule, up to word `n`, are in place. */
  ghost predicate Scheduled(key: State, roundKey: seq<byte>, n: nat)
    requires |roundKey| == SCHEDULE_OCTETS && n <= 44
  {
    forall w :: 0 <= w < n ==> ColumnAt(roundKey, w) == Word(key, w)
  }

  /** The power of x in the field. */
  function Power(n: nat): byte {
    if n == 0 then 1 else Times(Power(n - 1), 2)
  }

  /** Section 5.2, octet by octet: octet `j` of word `i` is that of the word one key length before it, plus that of
      the word before it. At the start of a key length that word is turned by one octet to the left and goes
      through the table, and a power of x is added to its first octet. */
  predicate OctetExpanded(w: seq<byte>, i: nat, j: nat)
    requires |w| == SCHEDULE_OCTETS && 4 <= i < 44 && j < 4
  {
    w[4 * i + j] ==
    w[4 * (i - 4) + j] ^ (if i % 4 != 0 then w[4 * (i - 1) + j]
                          else SBox(w[4 * (i - 1) + (j + 1) % 4]) ^ (if j == 0 then Power(i / 4 - 1) else 0))
  }

  predicate WordExpanded(w: seq<byte>, i: nat)
    requires |w| == SCHEDULE_OCTETS && 4 <= i < 44
  {
    OctetExpanded(w, i, 0) && OctetExpanded(w, i, 1) && OctetExpanded(w, i, 2) && OctetExpanded(w, i, 3)
  }

  predicate Expanded(key: seq<byte>, w: seq<byte>)
    requires |key| == KEY_OCTETS && |w| == SCHEDULE_OCTETS
  {
    w[..16] == key && forall i :: 4 <= i < 44 ==> WordExpanded(w, i)
  }

  lemma {:induction false} RconPower(n: nat)
    requires n >= 1
    ensures Rcon(n) == Power(n - 1)
  {
    if n > 1 {
      RconPower(n - 1);
      XtimeIsDouble(Rcon(n - 1));
    }
  }

  lemma {:induction false} XtimeIsDouble(x: byte)
    ensures Xtime(x) == Times(x, 2)
  {
  }

  lemma {:induction false} ScheduledExpands(key: seq<byte>, w: seq<byte>)
    requires |key| == KEY_OCTETS && |w| == SCHEDULE_OCTETS && Scheduled(StateOf(key), w, 44)
    ensures Expanded(key, w)
  {
    hide Word;
    hide WordExpanded;
    KeyWords(StateOf(key));
    assert w[..16] == key by {
      assert ColumnAt(w, 0) == ColumnAt(key, 0) && ColumnAt(w, 1) == ColumnAt(key, 1);
      assert ColumnAt(w, 2) == ColumnAt(key, 2) && ColumnAt(w, 3) == ColumnAt(key, 3);
    }
    forall i | 4 <= i < 44 ensures WordExpanded(w, i) {
      WordExpands(StateOf(key), w, i);
    }
  }

  lemma {:induction false} KeyWords(key: State)
    ensures Word(key, 0) == key.c0 && Word(key, 1) == key.c1 && Word(key, 2) == key.c2 && Word(key, 3) == key.c3
  {
  }

  lemma {:induction false} WordExpands(key: State, w: seq<byte>, i: nat)
    requires |w| == SCHEDULE_OCTETS && Scheduled(key, w, 44) && 4 <= i < 44
    ensures WordExpanded(w, i)
  {
    hide SBox;
    hide Word;
    hide Rcon;
    hide Power;
    WordStep(key, i);
    if i % 4 == 0 {
      RconPower(i / 4);
    }
    assert ColumnAt(w, i) == Word(key, i) && ColumnAt(w, i - 1) == Word(key, i - 1) && ColumnAt(w, i - 4) == Word(key, i - 4);
    hide Scheduled;
  }

  /** The first round key is the key itself. */
  method CopyKey(key: seq<byte>, roundKey: array<byte>)
    requires |key| == KEY_OCTETS && roundKey.Length == SCHEDULE_OCTETS
    modifies roundKey
    ensures Scheduled(StateOf(key), roundKey[..], 4)
  {
    hide Scheduled;
    hide StateOf;
    var i := 0;
    while i < 4
      invariant 0 <= i <= 4
      invariant forall k :: 0 <= k < 4 * i ==> roundKey[k] == key[k]
    {
      roundKey[i * 4] := key[i * 4];
      roundKey[i * 4 + 1] := key[i * 4 + 1];
      roundKey[i * 4 + 2] := key[i * 4 + 2];
      roundKey[i * 4 + 3] := key[i * 4 + 3];
      i := i + 1;
    }
    FirstWords(key, roundKey[..]);
  }

  lemma {:induction false} FirstWords(key: seq<byte>, roundKey: seq<byte>)
    requires |key| == KEY_OCTETS && |roundKey| == SCHEDULE_OCTETS && forall k :: 0 <= k < 16 ==> roundKey[k] == key[k]
    ensures Scheduled(StateOf(key), roundKey, 4)
  {
    assert ColumnAt(roundKey, 0) == Word(StateOf(key), 0);
    assert ColumnAt(roundKey, 1) == Word(StateOf(key), 1);
    assert ColumnAt(roundKey, 2) == Word(StateOf(key), 2);
    assert ColumnAt(roundKey, 3) == Word(StateOf(key), 3);
  }

  method KeyExpansion(key: seq<byte>, roundKey: array<byte>)
    requires |key| == KEY_OCTETS && roundKey.Length == SCHEDULE_OCTETS
    modifies roundKey
    ensures Scheduled(StateOf(key), roundKey[..], 44) && Expanded(key, roundKey[..])
  {
    hide Scheduled;
    hide StateOf;
    hide Expanded;
    CopyKey(key, roundKey);
    var i := 4;
    while i < 44
      invariant 4 <= i <= 44 && Scheduled(StateOf(key), roundKey[..], i)
    {
      ExpandWord(StateOf(key), roundKey, i);
      i := i + 1;
    }
    ScheduledExpands(key, roundKey[..]);
  }

  /** One word from the word before it and the word one key length before it. */
  method ExpandWord(ghost key: State, roundKey: array<byte>, i: nat)
    requires roundKey.Length == SCHEDULE_OCTETS && 4 <= i < 44 && Scheduled(key, roundKey[..], i)
    modifies roundKey
    ensures Scheduled(key, roundKey[..], i + 1)
  {
    hide SBox;
    hide Plus;
    hide Word;
    hide Rcon;
    hide Xtime;
    WordStep(key, i);
    var t := ColumnAt(roundKey[..], i - 1);
    if i % 4 == 0 {
      t := SubWord(RotWord(t));
      RconTable(i / 4);
      PlusCancels(t.b, 0);
      PlusCancels(t.c, 0);
      PlusCancels(t.d, 0);
      t := Column(Plus(t.a, RCON[i / 4]), t.b, t.c, t.d);
    }
    ghost var was := roundKey[..];
    var p := ColumnAt(roundKey[..], i - 4);
    roundKey[i * 4] := Plus(p.a, t.a);
    roundKey[i * 4 + 1] := Plus(p.b, t.b);
    roundKey[i * 4 + 2] := Plus(p.c, t.c);
    roundKey[i * 4 + 3] := Plus(p.d, t.d);
    assert ColumnAt(roundKey[..], i) == Word(key, i);
    forall w | 0 <= w < i ensures ColumnAt(roundKey[..], w) == Word(key, w) {
      assert ColumnAt(was, w) == Word(key, w);
    }
  }

  lemma {:induction false} WordStep(key: State, i: nat)
    requires i >= 4
    ensures var temp := Word(key, i - 1);
            Word(key, i) == Xor(Word(key, i - 4), if i % 4 == 0 then Xor(SubWord(RotWord(temp)), Column(Rcon(i / 4), 0, 0, 0)) else temp)
  {
    hide SBox;
    hide Plus;
  }

  lemma {:induction false} RoundKeyAt(key: State, roundKey: seq<byte>, round: nat)
    requires |roundKey| == SCHEDULE_OCTETS && round <= ROUNDS && Scheduled(key, roundKey, 44)
    ensures StateOf(roundKey[16 * round..16 * round + 16]) == RoundKey(key, round)
  {
    hide Word;
    var k := roundKey[16 * round..16 * round + 16];
    assert ColumnAt(k, 0) == ColumnAt(roundKey, 4 * round);
    assert ColumnAt(k, 1) == ColumnAt(roundKey, 4 * round + 1);
    assert ColumnAt(k, 2) == ColumnAt(roundKey, 4 * round + 2);
    assert ColumnAt(k, 3) == ColumnAt(roundKey, 4 * round + 3);
  }

  // ---- the cipher -------------------------------------------------------------------------------------

  method AddKey(ghost key: State, roundKey: array<byte>, s: array<byte>, round: nat)
    requires s.Length == 16 && roundKey.Length == SCHEDULE_OCTETS && round <= ROUNDS && s != roundKey
    requires Scheduled(key, roundKey[..], 44)
    modifies s
    ensures StateOf(s[..]) == AesSpec.AddRoundKey(StateOf(old(s[..])), RoundKey(key, round))
  {
    hide Scheduled;
    hide StateOf;
    hide AesSpec.AddRoundKey;
    hide RoundKey;
    RoundKeyAt(key, roundKey[..], round);
    assert roundKey[16 * round..16 * round + 16] == roundKey[..][16 * round..16 * round + 16];
    AddRoundKey(roundKey, s, round);
  }

  method CipherInPlace(ghost key: State, roundKey: array<byte>, s: array<byte>)
    requires s.Length == 16 && roundKey.Length == SCHEDULE_OCTETS && s != roundKey
    requires Scheduled(key, roundKey[..], 44)
    modifies s
    ensures StateOf(s[..]) == Cipher(key, StateOf(old(s[..])))
  {
    hide Scheduled;
    hide StateOf;
    hide AesSpec.SubBytes;
    hide AesSpec.ShiftRows;
    hide AesSpec.MixColumns;
    hide AesSpec.AddRoundKey;
    hide RoundKey;
    AddKey(key, roundKey, s, 0);
    var round := 1;
    while round < ROUNDS
      invariant 1 <= round <= ROUNDS && StateOf(s[..]) == Rounds(key, StateOf(old(s[..])), round - 1)
    {
      SubBytes(s);
      ShiftRows(s);
      MixColumns(s);
      AddKey(key, roundKey, s, round);
      round := round + 1;
    }
    SubBytes(s);
    ShiftRows(s);
    AddKey(key, roundKey, s, ROUNDS);
  }

  method InvCipherInPlace(ghost key: State, roundKey: array<byte>, s: array<byte>)
    requires s.Length == 16 && roundKey.Length == SCHEDULE_OCTETS && s != roundKey
    requires Scheduled(key, roundKey[..], 44)
    modifies s
    ensures StateOf(s[..]) == InvCipher(key, StateOf(old(s[..])))
  {
    hide Scheduled;
    hide StateOf;
    hide AesSpec.InvSubBytes;
    hide AesSpec.InvShiftRows;
    hide AesSpec.InvMixColumns;
    hide AesSpec.AddRoundKey;
    hide RoundKey;
    AddKey(key, roundKey, s, ROUNDS);
    var round := ROUNDS - 1;
    while round > 0
      invariant 0 <= round < ROUNDS && StateOf(s[..]) == InvRounds(key, StateOf(old(s[..])), round + 1)
    {
      InvShiftRows(s);
      InvSubBytes(s);
      AddKey(key, roundKey, s, round);
      InvMixColumns(s);
      round := round - 1;
    }
    InvShiftRows(s);
    InvSubBytes(s);
    AddKey(key, roundKey, s, 0);
  }

  method BlockCopy(output: array<byte>, input: array<byte>)
    requires output.Length == input.Length == 16
    modifies output
    ensures output[..] == old(input[..])
  {
    var i := 0;
    while i < 16
      invariant 0 <= i <= 16
      invariant forall k :: 0 <= k < i ==> output[k] == old(input[k])
      invariant forall k :: i <= k < 16 ==> input[k] == old(input[k])
    {
      output[i] := input[i];
      i := i + 1;
    }
  }

  function OctetsOf(s: State): (r: seq<byte>)
    ensures |r| == 16 && StateOf(r) == s
  {
    [s.c0.a, s.c0.b, s.c0.c, s.c0.d, s.c1.a, s.c1.b, s.c1.c, s.c1.d,
     s.c2.a, s.c2.b, s.c2.c, s.c2.d, s.c3.a, s.c3.b, s.c3.c, s.c3.d]
  }

  /** AES-128 on one block of sixteen octets. */
  function E(key: seq<byte>, block: seq<byte>): (r: seq<byte>)
    requires |key| == KEY_OCTETS && |block| == 16
    ensures |r| == 16
  {
    OctetsOf(Cipher(StateOf(key), StateOf(block)))
  }

  function D(key: seq<byte>, block: seq<byte>): (r: seq<byte>)
    requires |key| == KEY_OCTETS && |block| == 16
    ensures |r| == 16
  {
    OctetsOf(InvCipher(StateOf(key), StateOf(block)))
  }

  /** Both orders, for every key and block. */
  lemma {:induction false} EncryptionInverts(key: seq<byte>, block: seq<byte>)
    requires |key| == KEY_OCTETS && |block| == 16
    ensures D(key, E(key, block)) == block && E(key, D(key, block)) == block
  {
    hide StateOf;
    hide OctetsOf;
    hide Cipher;
    hide InvCipher;
    DecipherCipher(StateOf(key), StateOf(block));
    CipherDecipher(StateOf(key), StateOf(block));
    StateDetermines(OctetsOf(StateOf(block)), block);
  }

  /** One block. `input` and `output` may be the same array. */
  method Encrypt(input: array<byte>, key: seq<byte>, output: array<byte>)
    requires input.Length == output.Length == 16 && |key| == KEY_OCTETS
    modifies output
    ensures output[..] == E(key, old(input[..]))
  {
    hide Scheduled;
    hide StateOf;
    hide OctetsOf;
    hide Cipher;
    var roundKey := new byte[SCHEDULE_OCTETS];
    BlockCopy(output, input);
    KeyExpansion(key, roundKey);
    CipherInPlace(StateOf(key), roundKey, output);
    StateDetermines(output[..], OctetsOf(StateOf(output[..])));
  }

  method Decrypt(input: array<byte>, key: seq<byte>, output: array<byte>)
    requires input.Length == output.Length == 16 && |key| == KEY_OCTETS
    modifies output
    ensures output[..] == D(key, old(input[..]))
  {
    hide Scheduled;
    hide StateOf;
    hide OctetsOf;
    hide InvCipher;
    var roundKey := new byte[SCHEDULE_OCTETS];
    BlockCopy(output, input);
    KeyExpansion(key, roundKey);
    InvCipherInPlace(StateOf(key), roundKey, output);
    StateDetermines(output[..], OctetsOf(StateOf(output[..])));
  }
}
