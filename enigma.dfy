/** A three-rotor Enigma cipher: a plugboard, rotors with a forward and a
    backward wiring map, a reflector and a stepping rule. Encrypting a letter
    steps the rotors and sends the letter through the plugboard, the rotors
    from right to left, the reflector, the rotors from left to right and the
    plugboard again; any other character passes through untouched. */
module Enigma {
  import opened Text

  /** JavaScript's `%` on integers: the remainder truncates toward zero, so it
      has the sign of the dividend. */
  function JsRem(n: int, m: int): (r: int)
    requires m > 0
    ensures -m < r < m
    ensures n >= 0 ==> r >= 0
  {
    if n >= 0 then n % m else -((-n) % m)
  }

  /** mod(n, m) = ((n % m) + m) % m, with JavaScript's `%`. */
  function Mod(n: int, m: int): (r: int)
    requires m > 0
    ensures 0 <= r < m
  {
    JsRem(JsRem(n, m) + m, m)
  }

  /** The double remainder by 26, the only modulus the machine uses, is the
      mathematical (Euclidean) modulus, for negative arguments too. */
  lemma ModIsModulus(n: int)
    ensures Mod(n, 26) == n % 26
  {
    var r := JsRem(n, 26);
    if n < 0 {
      var q := (-n) / 26;
      assert -n == q * 26 + (-n) % 26;
      assert r + 26 == n + (q + 1) * 26;
      ModMultiple(n, q + 1);
    }
    assert JsRem(r + 26, 26) == (r + 26) % 26;
  }

  lemma ModMultiple(n: int, q: int)
    ensures (n + q * 26) % 26 == n % 26
  {
    var k := n % 26;
    var d := n / 26;
    assert n == d * 26 + k;
    assert n + q * 26 == (d + q) * 26 + k;
  }

  /** Euclidean modulus by 26 after shifting by a multiple of 26. */
  lemma Mod26Shift(a: int, b: int)
    ensures Mod(Mod(a, 26) + b, 26) == Mod(a + b, 26)
  {
    ModIsModulus(a);
    ModIsModulus(Mod(a, 26) + b);
    ModIsModulus(a + b);
    var d := a / 26;
    assert a == d * 26 + a % 26;
    ModMultiple(a % 26 + b, d);
    assert a % 26 + b + d * 26 == a + b;
  }

  const Alphabet: string := "ABCDEFGHIJKLMNOPQRSTUVWXYZ"

  /** The k-th letter. */
  function Letter(k: int): char
    requires 0 <= k < 26
  {
    (k + 'A' as int) as char
  }

  /** The position of a capital letter in the alphabet. */
  function Code(c: char): int {
    c as int - 'A' as int
  }

  /** An index in 0..25, spelt out so that a proof can go case by case. */
  predicate SmallIndex(k: int) {
    k == 0 || k == 1 || k == 2 || k == 3 || k == 4 || k == 5 || k == 6 || k == 7 || k == 8
    || k == 9 || k == 10 || k == 11 || k == 12 || k == 13 || k == 14 || k == 15 || k == 16
    || k == 17 || k == 18 || k == 19 || k == 20 || k == 21 || k == 22 || k == 23 || k == 24 || k == 25
  }

  lemma AlphabetLetters()
    ensures |Alphabet| == 26
    ensures forall k :: 0 <= k < 26 ==> Alphabet[k] == Letter(k)
  {
    forall k | 0 <= k < 26 ensures Alphabet[k] == Letter(k) {
      assert SmallIndex(k);
    }
  }

  /** alphabet.indexOf(c): the letter's position, -1 for anything else
      (AlphabetIndex shows it is that search). */
  function AlphabetPosition(c: char): int {
    if IsUpper(c) then Code(c) else -1
  }

  /** Searching the alphabet for a capital letter finds it at its position;
      searching for anything else finds nothing. */
  lemma AlphabetIndex(c: char)
    ensures IndexOf(Alphabet, c) == AlphabetPosition(c)
  {
    AlphabetLetters();
    LettersIndex(Alphabet, c);
  }

  lemma LettersIndex(s: string, c: char)
    requires |s| == 26 && forall k :: 0 <= k < 26 ==> s[k] == Letter(k)
    ensures IndexOf(s, c) == AlphabetPosition(c)
  {
    if IsUpper(c) {
      assert s[Code(c)] == c;
    }
    var r := IndexOf(s, c);
    if r >= 0 {
      assert Code(Letter(r)) == r;
    }
  }

  /** A rotor wiring: a permutation of the 26 capital letters. */
  predicate IsWiring(w: string) {
    && |w| == 26
    && (forall i :: 0 <= i < 26 ==> IsUpper(w[i]))
    && (forall i, j :: 0 <= i < j < 26 ==> w[i] != w[j])
    && (forall k :: 0 <= k < 26 ==> Letter(k) in w)
  }

  /** A wiring with a two-sided inverse table is a permutation. */
  lemma WiringByInverse(w: string, inv: seq<int>)
    requires |w| == 26 && |inv| == 26
    requires forall k :: 0 <= k < 26 ==> IsUpper(w[k]) && inv[Code(w[k])] == k
    requires forall k :: 0 <= k < 26 ==> 0 <= inv[k] < 26 && w[inv[k]] == Letter(k)
    ensures IsWiring(w)
  {
    forall i, j | 0 <= i < j < 26 ensures w[i] != w[j] {
      assert inv[Code(w[i])] == i;
      assert inv[Code(w[j])] == j;
    }
    forall k | 0 <= k < 26 ensures Letter(k) in w {
      assert w[inv[k]] == Letter(k);
    }
  }

  datatype RotorSpec = RotorSpec(wiring: string, notch: char)

  /** Rotors I, II and III. */
  const ROTORS: seq<RotorSpec> := [
    RotorSpec("EKMFLGDQVZNTOWYHXUSPAIBRCJ", 'Q'),
    RotorSpec("AJDKSIRUXBLHWTMCQGZNPYFVOE", 'E'),
    RotorSpec("BDFHJLCPRTXVZNYEIWGAKMUSQO", 'V')
  ]

  /** Reflector B. */
  const REFLECTOR: string := "YRUHQSLDPXNGOKMIEBFZCWVJAT"

  /** The position of each letter in rotor I's wiring. */
  const RotorOneInverse: seq<int> := [20, 22, 24, 6, 0, 3, 5, 15, 21, 25, 1, 4, 2, 10, 12, 19, 7, 23, 18, 11, 17, 8, 13, 16, 14, 9]

  /** Rotor I's wiring is a permutation of the alphabet. */
  lemma RotorOneWiring()
    ensures IsWiring(ROTORS[0].wiring)
  {
    RotorOneTo();
    RotorOneFrom();
    WiringByInverse(ROTORS[0].wiring, RotorOneInverse);
  }

  /** The table finds each letter of rotor I's wiring at its position. */
  lemma RotorOneTo()
    ensures forall k :: 0 <= k < 26 ==> IsUpper(ROTORS[0].wiring[k]) && RotorOneInverse[Code(ROTORS[0].wiring[k])] == k
  {
    var w := ROTORS[0].wiring;
    forall k | 0 <= k < 26 ensures IsUpper(w[k]) && RotorOneInverse[Code(w[k])] == k {
      assert SmallIndex(k);
    }
  }

  /** Each letter is in rotor I's wiring where the table says. */
  lemma RotorOneFrom()
    ensures forall k :: 0 <= k < 26 ==> 0 <= RotorOneInverse[k] < 26 && ROTORS[0].wiring[RotorOneInverse[k]] == Letter(k)
  {
    var w := ROTORS[0].wiring;
    forall k | 0 <= k < 26 ensures 0 <= RotorOneInverse[k] < 26 && w[RotorOneInverse[k]] == Letter(k) {
      assert SmallIndex(k);
    }
  }

  /** The position of each letter in rotor II's wiring. */
  const RotorTwoInverse: seq<int> := [0, 9, 15, 2, 25, 22, 17, 11, 5, 1, 3, 10, 14, 19, 24, 20, 16, 6, 4, 13, 7, 23, 12, 8, 21, 18]

  /** Rotor II's wiring is a permutation of the alphabet. */
  lemma RotorTwoWiring()
    ensures IsWiring(ROTORS[1].wiring)
  {
    RotorTwoTo();
    RotorTwoFrom();
    WiringByInverse(ROTORS[1].wiring, RotorTwoInverse);
  }

  /** The table finds each letter of rotor II's wiring at its position. */
  lemma RotorTwoTo()
    ensures forall k :: 0 <= k < 26 ==> IsUpper(ROTORS[1].wiring[k]) && RotorTwoInverse[Code(ROTORS[1].wiring[k])] == k
  {
    var w := ROTORS[1].wiring;
    forall k | 0 <= k < 26 ensures IsUpper(w[k]) && RotorTwoInverse[Code(w[k])] == k {
      assert SmallIndex(k);
    }
  }

  /** Each letter is in rotor II's wiring where the table says. */
  lemma RotorTwoFrom()
    ensures forall k :: 0 <= k < 26 ==> 0 <= RotorTwoInverse[k] < 26 && ROTORS[1].wiring[RotorTwoInverse[k]] == Letter(k)
  {
    var w := ROTORS[1].wiring;
    forall k | 0 <= k < 26 ensures 0 <= RotorTwoInverse[k] < 26 && w[RotorTwoInverse[k]] == Letter(k) {
      assert SmallIndex(k);
    }
  }

  /** The position of each letter in rotor III's wiring. */
  const RotorThreeInverse: seq<int> := [19, 0, 6, 1, 15, 2, 18, 3, 16, 4, 20, 5, 21, 13, 25, 7, 24, 8, 23, 9, 22, 11, 17, 10, 14, 12]

  /** Rotor III's wiring is a permutation of the alphabet. */
  lemma RotorThreeWiring()
    ensures IsWiring(ROTORS[2].wiring)
  {
    RotorThreeTo();
    RotorThreeFrom();
    WiringByInverse(ROTORS[2].wiring, RotorThreeInverse);
  }

  /** The table finds each letter of rotor III's wiring at its position. */
  lemma RotorThreeTo()
    ensures forall k :: 0 <= k < 26 ==> IsUpper(ROTORS[2].wiring[k]) && RotorThreeInverse[Code(ROTORS[2].wiring[k])] == k
  {
    var w := ROTORS[2].wiring;
    forall k | 0 <= k < 26 ensures IsUpper(w[k]) && RotorThreeInverse[Code(w[k])] == k {
      assert SmallIndex(k);
    }
  }

  /** Each letter is in rotor III's wiring where the table says. */
  lemma RotorThreeFrom()
    ensures forall k :: 0 <= k < 26 ==> 0 <= RotorThreeInverse[k] < 26 && ROTORS[2].wiring[RotorThreeInverse[k]] == Letter(k)
  {
    var w := ROTORS[2].wiring;
    forall k | 0 <= k < 26 ensures 0 <= RotorThreeInverse[k] < 26 && w[RotorThreeInverse[k]] == Letter(k) {
      assert SmallIndex(k);
    }
  }

  /** Each of the three rotor wirings is a permutation of the alphabet. */
  lemma RotorWirings()
    ensures forall id :: 0 <= id < |ROTORS| ==> IsWiring(ROTORS[id].wiring)
  {
    RotorOneWiring();
    RotorTwoWiring();
    RotorThreeWiring();
  }

  /** REFLECTOR[alphabet.indexOf(c)], on a letter. */
  function Reflect(c: char): char
    requires IsUpper(c)
  {
    REFLECTOR[AlphabetPosition(c)]
  }

  /** The reflector pairs the letters off: it is an involution without fixed
      points. */
  lemma ReflectorInvolution(c: char)
    requires IsUpper(c)
    ensures IsUpper(Reflect(c)) && Reflect(Reflect(c)) == c && Reflect(c) != c
  {
    var k := Code(c);
    ReflectorTable(k);
    assert Letter(k) == c;
  }

  /** The reflector, letter by letter: each letter's partner is a letter
      other than itself whose partner is the letter. */
  lemma ReflectorTable(k: int)
    requires 0 <= k < 26
    ensures IsUpper(REFLECTOR[k]) && 0 <= Code(REFLECTOR[k]) < 26
    ensures REFLECTOR[Code(REFLECTOR[k])] == Letter(k) && REFLECTOR[k] != Letter(k)
  {
    assert SmallIndex(k);
  }

  /** plugboardSwap(c, pairs): the partner of c in the first pair that holds
      it, or c itself. */
  function PlugboardSwap(c: char, pairs: seq<(char, char)>): char {
    if pairs == [] then c
    else if c == pairs[0].0 then pairs[0].1
    else if c == pairs[0].1 then pairs[0].0
    else PlugboardSwap(c, pairs[1..])
  }

  predicate InPairs(c: char, pairs: seq<(char, char)>) {
    exists i :: 0 <= i < |pairs| && (pairs[i].0 == c || pairs[i].1 == c)
  }

  /** No letter is plugged into two different cables. */
  predicate DisjointPairs(pairs: seq<(char, char)>) {
    forall i, j :: 0 <= i < j < |pairs| ==>
      pairs[i].0 != pairs[j].0 && pairs[i].0 != pairs[j].1 && pairs[i].1 != pairs[j].0 && pairs[i].1 != pairs[j].1
  }

  /** Cables between capital letters, as the prompt's pair parser produces. */
  predicate LetterPairs(pairs: seq<(char, char)>) {
    forall i :: 0 <= i < |pairs| ==> IsUpper(pairs[i].0) && IsUpper(pairs[i].1)
  }

  /** A character not plugged in is left alone. */
  lemma {:induction false} PlugboardFixes(c: char, pairs: seq<(char, char)>)
    requires !InPairs(c, pairs)
    ensures PlugboardSwap(c, pairs) == c
  {
    if pairs != [] {
      assert !InPairs(c, pairs[1..]) by {
        forall i | 0 <= i < |pairs[1..]| ensures pairs[1..][i].0 != c && pairs[1..][i].1 != c {
          assert pairs[1..][i] == pairs[i + 1];
        }
      }
      PlugboardFixes(c, pairs[1..]);
    }
  }

  /** The swap gives c or the other end of one of the cables. */
  lemma {:induction false} PlugboardRange(c: char, pairs: seq<(char, char)>)
    ensures PlugboardSwap(c, pairs) == c || InPairs(PlugboardSwap(c, pairs), pairs)
  {
    if pairs != [] && c != pairs[0].0 && c != pairs[0].1 {
      PlugboardRange(c, pairs[1..]);
      if PlugboardSwap(c, pairs) != c {
        var i :| 0 <= i < |pairs[1..]| && (pairs[1..][i].0 == PlugboardSwap(c, pairs) || pairs[1..][i].1 == PlugboardSwap(c, pairs));
        assert pairs[1..][i] == pairs[i + 1];
      }
    }
  }

  /** With disjoint cables the plugboard is an involution. */
  lemma {:induction false} PlugboardInvolution(c: char, pairs: seq<(char, char)>)
    requires DisjointPairs(pairs)
    ensures PlugboardSwap(PlugboardSwap(c, pairs), pairs) == c
  {
    if pairs != [] && c != pairs[0].0 && c != pairs[0].1 {
      var rest := pairs[1..];
      assert DisjointPairs(rest) by {
        forall i, j | 0 <= i < j < |rest|
          ensures rest[i].0 != rest[j].0 && rest[i].0 != rest[j].1 && rest[i].1 != rest[j].0 && rest[i].1 != rest[j].1
        {
          assert rest[i] == pairs[i + 1] && rest[j] == pairs[j + 1];
        }
      }
      var d := PlugboardSwap(c, rest);
      PlugboardRange(c, rest);
      if d != c {
        var i :| 0 <= i < |rest| && (rest[i].0 == d || rest[i].1 == d);
        assert rest[i] == pairs[i + 1];
      }
      PlugboardInvolution(c, rest);
    }
  }

  /** Cables between letters keep letters letters. */
  lemma {:induction false} PlugboardLetters(c: char, pairs: seq<(char, char)>)
    requires LetterPairs(pairs) && IsUpper(c)
    ensures IsUpper(PlugboardSwap(c, pairs))
  {
    if pairs != [] && c != pairs[0].0 && c != pairs[0].1 {
      assert LetterPairs(pairs[1..]) by {
        forall i | 0 <= i < |pairs[1..]| ensures IsUpper(pairs[1..][i].0) && IsUpper(pairs[1..][i].1) {
          assert pairs[1..][i] == pairs[i + 1];
        }
      }
      PlugboardLetters(c, pairs[1..]);
    }
  }

  /** The plugboard examples: with the single cable A-B, A and B trade places
      and C stays. */
  lemma PlugboardExamples()
    ensures PlugboardSwap('A', [('A', 'B')]) == 'B'
    ensures PlugboardSwap('B', [('A', 'B')]) == 'A'
    ensures PlugboardSwap('C', [('A', 'B')]) == 'C'
  {
  }

  /** A rotor's configuration and current position. */
  datatype RotorState = RotorState(wiring: string, notch: char, ringSetting: int, position: int)

  /** atNotch(): the letter at the current position is the notch letter; a
      position outside 0..25 reads no letter. */
  predicate AtNotch(r: RotorState) {
    0 <= r.position < 26 && Alphabet[r.position] == r.notch
  }

  /** forward(c) */
  function Forward(r: RotorState, c: char): char
    requires |r.wiring| == 26
  {
    r.wiring[Mod(AlphabetPosition(c) + r.position - r.ringSetting, 26)]
  }

  /** backward(c) */
  function Backward(r: RotorState, c: char): (d: char)
    ensures IsUpper(d)
  {
    AlphabetLetters();
    Alphabet[Mod(IndexOf(r.wiring, c) - r.position + r.ringSetting, 26)]
  }

  /** The wiring's index of each of its letters. */
  lemma WiringIndex(w: string, j: int)
    requires IsWiring(w) && 0 <= j < 26
    ensures IndexOf(w, w[j]) == j
  {
    assert w[..j + 1][j] == w[j];
    var r := IndexOf(w, w[j]);
    assert r <= j;
  }

  /** Every letter appears in a wiring. */
  lemma WiringHas(w: string, y: char)
    requires IsWiring(w) && IsUpper(y)
    ensures 0 <= IndexOf(w, y) < 26 && w[IndexOf(w, y)] == y
  {
    assert Letter(Code(y)) == y;
  }

  /** Shifting by a and back again is the identity modulo 26. */
  lemma ShiftBack(x: int, a: int)
    ensures Mod(Mod(x + a, 26) - a, 26) == Mod(x, 26)
  {
    Mod26Shift(x + a, -a);
    assert x + a + -a == x;
  }

  /** Shifting back by a and forth again is the identity modulo 26. */
  lemma ShiftForth(x: int, a: int)
    ensures Mod(Mod(x - a, 26) + a, 26) == Mod(x, 26)
  {
    Mod26Shift(x - a, a);
    assert x - a + a == x;
  }

  lemma ModSmall(x: int)
    requires 0 <= x < 26
    ensures Mod(x, 26) == x
  {
    ModIsModulus(x);
  }

  /** How far a rotor's position and ring setting turn its wiring. */
  function Offset(r: RotorState): int {
    r.position - r.ringSetting
  }

  /** Forward on the k-th letter reads the wiring Offset places further on. */
  lemma ForwardAt(r: RotorState, k: int)
    requires |r.wiring| == 26 && 0 <= k < 26
    ensures Forward(r, Letter(k)) == r.wiring[Mod(k + Offset(r), 26)]
  {
    assert Code(Letter(k)) + r.position - r.ringSetting == k + Offset(r);
  }

  /** Backward on the wiring's j-th letter gives the letter Offset places
      back. */
  lemma BackwardAt(r: RotorState, j: int)
    requires IsWiring(r.wiring) && 0 <= j < 26
    ensures Backward(r, r.wiring[j]) == Letter(Mod(j - Offset(r), 26))
  {
    WiringIndex(r.wiring, j);
    AlphabetLetters();
    assert j - r.position + r.ringSetting == j - Offset(r);
  }

  /** backward undoes forward, at any position and ring setting. */
  lemma BackwardForward(r: RotorState, c: char)
    requires IsWiring(r.wiring) && IsUpper(c)
    ensures IsUpper(Forward(r, c))
    ensures Backward(r, Forward(r, c)) == c
  {
    var k := Code(c);
    assert Letter(k) == c;
    ForwardAt(r, k);
    BackwardAt(r, Mod(k + Offset(r), 26));
    ShiftBack(k, Offset(r));
    ModSmall(k);
  }

  /** forward undoes backward on letters, at any position and ring setting. */
  lemma ForwardBackward(r: RotorState, y: char)
    requires IsWiring(r.wiring) && IsUpper(y)
    ensures Forward(r, Backward(r, y)) == y
  {
    WiringHas(r.wiring, y);
    var j := IndexOf(r.wiring, y);
    BackwardAt(r, j);
    ForwardRound(r, j);
  }

  lemma ForwardRound(r: RotorState, j: int)
    requires |r.wiring| == 26 && 0 <= j < 26
    ensures Forward(r, Letter(Mod(j - Offset(r), 26))) == r.wiring[j]
  {
    var k := Mod(j - Offset(r), 26);
    ForwardAt(r, k);
    ShiftForth(j, Offset(r));
    ModSmall(j);
  }

  /** step(): the position advances by one, modulo 26. */
  function StepOne(r: RotorState): (s: RotorState)
    ensures s.wiring == r.wiring && s.notch == r.notch && s.ringSetting == r.ringSetting
    ensures 0 <= s.position < 26
  {
    r.(position := Mod(r.position + 1, 26))
  }

  /** Every rotor is wired as a permutation. */
  predicate Wired(st: seq<RotorState>) {
    forall i :: 0 <= i < |st| ==> IsWiring(st[i].wiring)
  }

  /** stepRotors(): the middle rotor steps when the right one is at its
      notch; then the left one steps when the middle one, as it now stands,
      is at its notch; then the right one steps. */
  function StepAll(st: seq<RotorState>): seq<RotorState>
    requires |st| >= 3
  {
    var s1 := if AtNotch(st[2]) then st[1 := StepOne(st[1])] else st;
    var s2 := if AtNotch(s1[1]) then s1[0 := StepOne(s1[0])] else s1;
    s2[2 := StepOne(s2[2])]
  }

  /** The stepping rule, rotor by rotor: the right rotor always advances,
      the middle one exactly when the right one was at its notch, the left one
      exactly when the middle one is at its notch after that; rotors past the
      third, and every wiring, notch and ring setting, stay as they were. */
  lemma SteppingRule(st: seq<RotorState>)
    requires |st| >= 3
    ensures var s := StepAll(st);
      && |s| == |st|
      && s[2].position == Mod(st[2].position + 1, 26)
      && s[1] == (if AtNotch(st[2]) then StepOne(st[1]) else st[1])
      && s[0] == (if AtNotch(s[1]) then StepOne(st[0]) else st[0])
      && (forall i :: 0 <= i < |st| ==>
            s[i].wiring == st[i].wiring && s[i].notch == st[i].notch && s[i].ringSetting == st[i].ringSetting)
      && (forall i :: 3 <= i < |st| ==> s[i] == st[i])
  {
  }

  /** From rotors I, II, III at A with ring settings A, the first letter
      moves only the right rotor, to B. */
  lemma FirstStepFromStart()
    ensures var s := StepAll(Configure([0, 1, 2], [0, 0, 0], [0, 0, 0]));
      s[0].position == 0 && s[1].position == 0 && s[2].position == 1
  {
    var st := Configure([0, 1, 2], [0, 0, 0], [0, 0, 0]);
    assert st[2].notch == 'V' && st[2].position == 0;
    assert st[1].notch == 'E' && st[1].position == 0;
    assert !AtNotch(st[2]) && !AtNotch(st[1]);
    ModSmall(1);
  }

  /** The rotors from right to left: the rightmost rotor is applied first. */
  function ForwardThrough(st: seq<RotorState>, c: char): char
    requires forall i :: 0 <= i < |st| ==> |st[i].wiring| == 26
  {
    if st == [] then c else Forward(st[0], ForwardThrough(st[1..], c))
  }

  /** The rotors from left to right: the leftmost rotor is applied first. */
  function BackwardThrough(st: seq<RotorState>, c: char): char {
    if st == [] then c else Backward(st[|st| - 1], BackwardThrough(st[..|st| - 1], c))
  }

  /** The same pass, taken apart at the leftmost rotor. */
  lemma {:induction false} BackwardThroughFirst(st: seq<RotorState>, c: char)
    requires st != []
    ensures BackwardThrough(st, c) == BackwardThrough(st[1..], Backward(st[0], c))
  {
    if |st| > 1 {
      var init := st[..|st| - 1];
      BackwardThroughFirst(init, c);
      assert init[1..] == st[1..][..|st[1..]| - 1];
      assert init[0] == st[0];
    }
  }

  /** The return pass undoes the forward pass on letters. */
  lemma {:induction false} ThroughInverse(st: seq<RotorState>, c: char)
    requires Wired(st) && IsUpper(c)
    ensures IsUpper(ForwardThrough(st, c))
    ensures BackwardThrough(st, ForwardThrough(st, c)) == c
  {
    if st != [] {
      assert Wired(st[1..]) by {
        forall i | 0 <= i < |st[1..]| ensures IsWiring(st[1..][i].wiring) {
          assert st[1..][i] == st[i + 1];
        }
      }
      var x := ForwardThrough(st[1..], c);
      ThroughInverse(st[1..], c);
      BackwardForward(st[0], x);
      BackwardThroughFirst(st, Forward(st[0], x));
    }
  }

  /** The forward pass undoes the return pass on letters. */
  lemma {:induction false} ThroughInverse2(st: seq<RotorState>, y: char)
    requires Wired(st) && IsUpper(y)
    ensures ForwardThrough(st, BackwardThrough(st, y)) == y
  {
    if st != [] {
      assert Wired(st[1..]) by {
        forall i | 0 <= i < |st[1..]| ensures IsWiring(st[1..][i].wiring) {
          assert st[1..][i] == st[i + 1];
        }
      }
      BackwardThroughFirst(st, y);
      var b := Backward(st[0], y);
      ThroughInverse2(st[1..], b);
      ForwardBackward(st[0], y);
    }
  }

  /** The substitution of one letter once the rotors have stepped. */
  function Scramble(st: seq<RotorState>, pairs: seq<(char, char)>, c: char): char
    requires Wired(st) && st != [] && LetterPairs(pairs) && IsUpper(c)
  {
    var p := PlugboardSwap(c, pairs);
    PlugboardLetters(c, pairs);
    ThroughInverse(st, p);
    ReflectorInvolution(ForwardThrough(st, p));
    PlugboardSwap(BackwardThrough(st, Reflect(ForwardThrough(st, p))), pairs)
  }

  /** Reciprocity of one substitution: applying it twice at the same rotor
      positions gives the letter back, and no letter is sent to itself. */
  lemma ScrambleReciprocal(st: seq<RotorState>, pairs: seq<(char, char)>, c: char)
    requires Wired(st) && st != [] && LetterPairs(pairs) && DisjointPairs(pairs) && IsUpper(c)
    ensures IsUpper(Scramble(st, pairs, c))
    ensures Scramble(st, pairs, Scramble(st, pairs, c)) == c
    ensures Scramble(st, pairs, c) != c
  {
    var p := PlugboardSwap(c, pairs);
    PlugboardLetters(c, pairs);
    ThroughInverse(st, p);
    var f := ForwardThrough(st, p);
    ReflectorInvolution(f);
    var b := BackwardThrough(st, Reflect(f));
    var d := PlugboardSwap(b, pairs);
    PlugboardLetters(b, pairs);
    PlugboardInvolution(b, pairs);
    ThroughInverse2(st, Reflect(f));
    ThroughInverse(st, b);
    assert ForwardThrough(st, b) == Reflect(f);
    PlugboardInvolution(c, pairs);
    assert ForwardThrough(st, b) != ForwardThrough(st, p);
    assert PlugboardSwap(d, pairs) != PlugboardSwap(c, pairs);
  }

  /** encryptChar(c) on the rotor states: the output and the new states. */
  function EncryptStep(st: seq<RotorState>, pairs: seq<(char, char)>, c: char): (seq<RotorState>, char)
    requires Wired(st) && (IsUpper(c) ==> |st| >= 3) && LetterPairs(pairs)
  {
    if !IsUpper(c) then (st, c)
    else
      var s := StepAll(st);
      SteppingRule(st);
      (s, Scramble(s, pairs, c))
  }

  /** Encrypting text character by character from the given states: the
      output so far and the states reached. */
  function Run(st: seq<RotorState>, pairs: seq<(char, char)>, text: string): (res: (seq<RotorState>, string))
    requires Wired(st) && |st| >= 3 && LetterPairs(pairs)
    ensures |res.1| == |text| && |res.0| == |st| && Wired(res.0)
    ensures forall i :: 0 <= i < |st| ==>
      res.0[i].wiring == st[i].wiring && res.0[i].notch == st[i].notch && res.0[i].ringSetting == st[i].ringSetting
  {
    if text == [] then (st, [])
    else
      var (s, out) := Run(st, pairs, text[..|text| - 1]);
      var (s', d) := EncryptStep(s, pairs, text[|text| - 1]);
      SteppingRule(s);
      (s', out + [d])
  }

  /** One character: a letter is encrypted to another letter, anything else
      is kept without stepping the rotors, and encrypting the output from the same states takes the same
      step and gives the character back. */
  lemma EncryptStepReciprocal(st: seq<RotorState>, pairs: seq<(char, char)>, c: char)
    requires Wired(st) && |st| >= 3 && LetterPairs(pairs) && DisjointPairs(pairs)
    ensures var (s1, d) := EncryptStep(st, pairs, c);
      && (IsUpper(d) <==> IsUpper(c))
      && (!IsUpper(c) ==> d == c && s1 == st)
      && (IsUpper(c) ==> d != c)
      && EncryptStep(st, pairs, d) == (s1, c)
  {
    if IsUpper(c) {
      SteppingRule(st);
      ScrambleReciprocal(StepAll(st), pairs, c);
    }
  }

  /** Letters are encrypted to letters, other characters are kept; a run
      re-entered with its own output takes the same steps and gives the
      input back. */
  lemma {:induction false} RunReciprocal(st: seq<RotorState>, pairs: seq<(char, char)>, text: string)
    requires Wired(st) && |st| >= 3 && LetterPairs(pairs) && DisjointPairs(pairs)
    ensures var (s1, enc) := Run(st, pairs, text);
      && (forall i :: 0 <= i < |text| ==> (IsUpper(enc[i]) <==> IsUpper(text[i])))
      && (forall i :: 0 <= i < |text| && !IsUpper(text[i]) ==> enc[i] == text[i])
      && Run(st, pairs, enc) == (s1, text)
  {
    if text != [] {
      var init := text[..|text| - 1];
      var c := text[|text| - 1];
      assert text == init + [c];
      RunReciprocal(st, pairs, init);
      var (s, out) := Run(st, pairs, init);
      var (s1, d) := EncryptStep(s, pairs, c);
      EncryptStepReciprocal(s, pairs, c);
      var enc := out + [d];
      assert Run(st, pairs, text) == (s1, enc);
      assert enc[..|enc| - 1] == out;
      assert Run(st, pairs, enc) == (s1, text);
      forall i | 0 <= i < |text|
        ensures (IsUpper(enc[i]) <==> IsUpper(text[i]))
        ensures !IsUpper(text[i]) ==> enc[i] == text[i]
      {
        if i < |init| {
          assert enc[i] == out[i] && text[i] == init[i];
        }
      }
    }
  }

  /** A rotor object: its wiring, notch and ring setting are fixed, its
      position moves. */
  class Rotor {
    const wiring: string
    const notch: char
    const ringSetting: int
    var position: int

    constructor(wiring: string, notch: char, ringSetting: int, position: int)
      ensures this.wiring == wiring && this.notch == notch
      ensures this.ringSetting == ringSetting && this.position == position
    {
      this.wiring, this.notch, this.ringSetting, this.position := wiring, notch, ringSetting, position;
    }

    function State(): RotorState
      reads this
    {
      RotorState(wiring, notch, ringSetting, position)
    }

    /** step(): the position advances by one and stays within 0..25. */
    method Step()
      modifies this
      ensures State() == StepOne(old(State()))
      ensures 0 <= position < 26
    {
      position := Mod(position + 1, 26);
    }
  }

  /** The machine: its rotors, left to right, and its plugboard cables. */
  class Enigma {
    const rotors: seq<Rotor>
    const plugboardPairs: seq<(char, char)>
    ghost const Repr: set<object>

    /** Distinct rotor objects, each wired as a permutation. */
    ghost predicate Valid() {
      && (forall i :: 0 <= i < |rotors| ==> rotors[i] in Repr)
      && (forall i, j :: 0 <= i < j < |rotors| ==> rotors[i] != rotors[j])
      && (forall i :: 0 <= i < |rotors| ==> IsWiring(rotors[i].wiring))
    }

    /** The rotor states, left to right. */
    ghost function State(): (st: seq<RotorState>)
      requires Valid()
      reads Repr
      ensures |st| == |rotors| && Wired(st)
    {
      seq(|rotors|, i reads Repr requires 0 <= i < |rotors| => rotors[i].State())
    }

    /** new Enigma(rotorIDs, rotorPositions, ringSettings, plugboardPairs):
        one fresh rotor per id, taking its wiring and notch from ROTORS and
        its ring setting and position from the same index. */
    constructor(rotorIDs: seq<nat>, rotorPositions: seq<int>, ringSettings: seq<int>, pairs: seq<(char, char)>)
      requires forall i :: 0 <= i < |rotorIDs| ==> rotorIDs[i] < |ROTORS|
      ensures Valid() && fresh(Repr)
      ensures plugboardPairs == pairs && |rotors| == |rotorIDs|
      ensures State() == Configure(rotorIDs, rotorPositions, ringSettings)
    {
      RotorWirings();
      var rs: seq<Rotor> := [];
      ghost var made: set<object> := {};
      var i := 0;
      while i < |rotorIDs|
        invariant 0 <= i <= |rotorIDs| && |rs| == i
        invariant forall k :: 0 <= k < i ==> rs[k] in made
        invariant forall o :: o in made ==> fresh(o)
        invariant forall k, l :: 0 <= k < l < i ==> rs[k] != rs[l]
        invariant forall k :: 0 <= k < i ==> rs[k].State() == Configure(rotorIDs, rotorPositions, ringSettings)[k]
      {
        var spec := ROTORS[rotorIDs[i]];
        var ringSetting := if i < |ringSettings| then ringSettings[i] else 0;
        var position := if i < |rotorPositions| then rotorPositions[i] else 0;
        var r := new Rotor(spec.wiring, spec.notch, ringSetting, position);
        rs := rs + [r];
        made := made + {r};
        i := i + 1;
      }
      rotors, plugboardPairs := rs, pairs;
      Repr := made;
    }

    /** stepRotors() */
    method StepRotors()
      requires Valid() && |rotors| >= 3
      modifies Repr
      ensures State() == StepAll(old(State()))
    {
      if AtNotch(rotors[2].State()) {
        rotors[1].Step();
      }
      if AtNotch(rotors[1].State()) {
        rotors[0].Step();
      }
      rotors[2].Step();
      assert State() == StepAll(old(State()));
    }

    /** encryptChar(c) */
    method EncryptChar(c: char) returns (d: char)
      requires Valid() && LetterPairs(plugboardPairs) && (IsUpper(c) ==> |rotors| >= 3)
      modifies Repr
      ensures (State(), d) == EncryptStep(old(State()), plugboardPairs, c)
    {
      AlphabetIndex(c);
      if c !in Alphabet {
        return c;
      }
      StepRotors();
      d := PlugboardSwap(c, plugboardPairs);
      PlugboardLetters(c, plugboardPairs);
      d := ForwardPass(d);
      ThroughInverse(State(), PlugboardSwap(c, plugboardPairs));
      d := Reflect(d);
      d := BackwardPass(d);
      d := PlugboardSwap(d, plugboardPairs);
    }

    /** The loop through the rotors from right to left. */
    method ForwardPass(c: char) returns (d: char)
      requires Valid()
      ensures d == ForwardThrough(State(), c)
    {
      ghost var st := State();
      d := c;
      var i := |rotors|;
      while i > 0
        invariant 0 <= i <= |rotors|
        invariant d == ForwardThrough(st[i..], c)
      {
        i := i - 1;
        assert st[i..][1..] == st[i + 1..];
        d := Forward(rotors[i].State(), d);
      }
    }

    /** The loop through the rotors from left to right. */
    method BackwardPass(c: char) returns (d: char)
      requires Valid()
      ensures d == BackwardThrough(State(), c)
    {
      ghost var st := State();
      d := c;
      var i := 0;
      while i < |rotors|
        invariant 0 <= i <= |rotors|
        invariant d == BackwardThrough(st[..i], c)
      {
        assert st[..i + 1][..i] == st[..i];
        d := Backward(rotors[i].State(), d);
        i := i + 1;
      }
      assert st[..i] == st;
    }

    /** process(text): the upper-cased text, encrypted character by
        character. */
    method Process(text: string) returns (out: string)
      requires Valid() && LetterPairs(plugboardPairs) && |rotors| >= 3
      modifies Repr
      ensures (State(), out) == Run(old(State()), plugboardPairs, ToUpper(text))
      ensures |out| == |text|
    {
      var upper := ToUpper(text);
      out := [];
      var i := 0;
      while i < |upper|
        invariant 0 <= i <= |upper|
        invariant (State(), out) == Run(old(State()), plugboardPairs, upper[..i])
      {
        assert upper[..i + 1][..i] == upper[..i];
        var d := EncryptChar(upper[i]);
        out := out + [d];
        i := i + 1;
      }
      assert upper[..i] == upper;
    }
  }

  /** The rotor states a new machine starts from. A ring setting or position
      the arguments leave out is 0, the Rotor constructor's default. */
  function Configure(rotorIDs: seq<nat>, rotorPositions: seq<int>, ringSettings: seq<int>): (st: seq<RotorState>)
    requires forall i :: 0 <= i < |rotorIDs| ==> rotorIDs[i] < |ROTORS|
    ensures |st| == |rotorIDs| && Wired(st)
    ensures forall i :: |ringSettings| <= i < |rotorIDs| ==> st[i].ringSetting == 0
    ensures forall i :: |rotorPositions| <= i < |rotorIDs| ==> st[i].position == 0
  {
    RotorWirings();
    seq(|rotorIDs|, i requires 0 <= i < |rotorIDs| =>
      RotorState(ROTORS[rotorIDs[i]].wiring, ROTORS[rotorIDs[i]].notch,
                 if i < |ringSettings| then ringSettings[i] else 0,
                 if i < |rotorPositions| then rotorPositions[i] else 0))
  }

  /** Upper-casing twice changes nothing more. */
  lemma ToUpperIdempotent(s: string)
    ensures ToUpper(ToUpper(s)) == ToUpper(s)
  {
  }

  /** Encrypting with one machine and decrypting with a second one set up
      the same way gives back the upper-cased plaintext. */
  method EncryptDecrypt(rotorIDs: seq<nat>, positions: seq<int>, ringSettings: seq<int>,
                        plugboard: seq<(char, char)>, plaintext: string)
    returns (encrypted: string, decrypted: string)
    requires |rotorIDs| >= 3 && forall i :: 0 <= i < |rotorIDs| ==> rotorIDs[i] < |ROTORS|
    requires LetterPairs(plugboard) && DisjointPairs(plugboard)
    ensures decrypted == ToUpper(plaintext)
    ensures |encrypted| == |plaintext|
  {
    var enigma1 := new Enigma(rotorIDs, positions, ringSettings, plugboard);
    encrypted := enigma1.Process(plaintext);
    var enigma2 := new Enigma(rotorIDs, positions, ringSettings, plugboard);
    decrypted := enigma2.Process(encrypted);
    ghost var st := Configure(rotorIDs, positions, ringSettings);
    RunReciprocal(st, plugboard, ToUpper(plaintext));
    EncryptedIsUpper(st, plugboard, ToUpper(plaintext));
  }

  /** The output of a run on upper-cased text is already upper-cased. */
  lemma EncryptedIsUpper(st: seq<RotorState>, pairs: seq<(char, char)>, text: string)
    requires Wired(st) && |st| >= 3 && LetterPairs(pairs) && DisjointPairs(pairs)
    requires ToUpper(text) == text
    ensures ToUpper(Run(st, pairs, text).1) == Run(st, pairs, text).1
  {
    RunReciprocal(st, pairs, text);
    var enc := Run(st, pairs, text).1;
    forall i | 0 <= i < |enc| ensures UpperChar(enc[i]) == enc[i] {
      assert UpperChar(text[i]) == text[i];
    }
  }
}
