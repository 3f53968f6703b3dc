/** Identification codes `PPP-nnn`: three letters of the profession, then the next number of that prefix. */
module Codes {
  import opened Core
  import opened Text

  predicate IsLetter(c: char) {
    'A' <= c <= 'Z' || 'a' <= c <= 'z'
  }

  function UpperCase(c: char): char
    requires IsLetter(c)
  {
    if c <= 'Z' then c else (c as int - 32) as char
  }

  /** `name.replace(/[^A-Za-z]/g, '').toUpperCase()` */
  function Letters(name: string): string {
    if name == "" then ""
    else if IsLetter(name[0]) then [UpperCase(name[0])] + Letters(name[1..])
    else Letters(name[1..])
  }

  /** `slice(0, 3).padEnd(3, 'X')` */
  function PrefixOf(name: string): string {
    var raw := Letters(name);
    if |raw| >= 3 then raw[..3] else if |raw| == 2 then raw + "X" else if |raw| == 1 then raw + "XX" else "XXX"
  }

  /** What one character contributes to a prefix. */
  function Capital(c: char): string {
    if 'A' <= c <= 'Z' then [c] else if 'a' <= c <= 'z' then [(c as int - 'a' as int + 'A' as int) as char] else []
  }

  /** What the replacement and upper-casing do: piece by piece, other characters vanish and letters become capitals. */
  lemma {:induction false} LettersMeans(a: string, b: string, c: char)
    ensures Letters(a + b) == Letters(a) + Letters(b)
    ensures Letters([c]) == Capital(c)
    ensures forall i | 0 <= i < |Letters(a)| :: 'A' <= Letters(a)[i] <= 'Z'
  {
    assert Letters([c][1..]) == [];
    if a == "" {
      assert a + b == b;
    } else {
      assert (a + b)[1..] == a[1..] + b;
      LettersMeans(a[1..], b, c);
    }
  }

  /** Three capitals: the first three letters of the name, filled up with X. */
  lemma PrefixMeans(name: string)
    ensures var p, raw := PrefixOf(name), Letters(name);
            && |p| == 3 && (forall i | 0 <= i < 3 :: p[i] == if i < |raw| then raw[i] else 'X')
            && (forall i | 0 <= i < 3 :: 'A' <= p[i] <= 'Z')
  {
    hide Letters;
    LettersMeans(name, "", 'A');
    var raw, p := Letters(name), PrefixOf(name);
    assert p == (raw + "XXX")[..3];
  }

  lemma PrefixesInWords()
    ensures PrefixOf("Ed medic") == "EDM" && PrefixOf("2nd") == "NDX" && PrefixOf("7") == "XXX"
  {
    hide PrefixOf, Letters;
    LettersOfThree("Ed ");
    LettersOfThree("med");
    LettersOfThree("2nd");
    LettersMeans("Ed ", "medic", '7');
    LettersMeans("med", "ic", '7');
    assert "Ed " + "medic" == "Ed medic" && "med" + "ic" == "medic" && "7" == ['7'];
    PrefixMeans("Ed medic");
    PrefixMeans("2nd");
    PrefixMeans("7");
  }

  lemma LettersOfThree(s: string)
    requires |s| == 3
    ensures Letters(s) == Capital(s[0]) + Capital(s[1]) + Capital(s[2])
  {
    assert s == [s[0]] + [s[1]] + [s[2]];
    LettersMeans([s[0]] + [s[1]], [s[2]], s[2]);
    LettersMeans([s[0]], [s[1]], s[1]);
    LettersMeans([], [], s[0]);
  }

  function Code(prefix: string, n: nat): string {
    prefix + "-" + Pad3(Decimal(n))
  }

  predicate HasPrefix(code: string, prefix: string) {
    prefix + "-" <= code
  }

  /** `findFirst` with `startsWith` and descending order: the greatest code with the prefix, if any. */
  ghost predicate IsLast(codes: set<string>, prefix: string, last: Option<string>) {
    match last
    case None => forall c | c in codes :: !HasPrefix(c, prefix)
    case Some(m) => m in codes && HasPrefix(m, prefix) && forall c | c in codes && HasPrefix(c, prefix) :: LexLeq(c, m)
  }

  /** The code after `last`: a suffix that is not a number restarts at 1. */
  function Following(prefix: string, last: Option<string>): string
    requires last.Some? ==> HasPrefix(last.value, prefix)
  {
    var suffix := if last.Some? then last.value[|prefix| + 1..] else "";
    Code(prefix, if AllDigits(suffix) then Value(suffix) + 1 else 1)
  }

  method FindLast(codes: set<string>, prefix: string) returns (last: Option<string>)
    ensures IsLast(codes, prefix, last)
  {
    var todo := codes;
    last := None;
    while todo != {}
      invariant todo <= codes
      invariant IsLast(codes - todo, prefix, last)
      decreases todo
    {
      var c := AnyOf(todo);
      if HasPrefix(c, prefix) {
        if last.None? {
          LexTotal(c, c);
          last := Some(c);
        } else {
          LexTotal(c, last.value);
          if !LexLeq(c, last.value) {
            forall d | d in codes - todo && HasPrefix(d, prefix) ensures LexLeq(d, c) { LexTransitive(d, last.value, c); }
            LexTotal(c, c);
            last := Some(c);
          }
        }
      }
      todo := todo - {c};
    }
    assert codes - todo == codes;
  }

  lemma LastUnique(codes: set<string>, prefix: string, a: Option<string>, b: Option<string>)
    requires IsLast(codes, prefix, a) && IsLast(codes, prefix, b)
    ensures a == b
  {
    if a.Some? && b.Some? {
      LexAntisymmetric(a.value, b.value);
    }
  }

  lemma {:induction false} LastExists(codes: set<string>, prefix: string)
    ensures exists last :: IsLast(codes, prefix, last)
    decreases codes
  {
    if codes == {} {
      assert IsLast(codes, prefix, None);
    } else {
      var c :| c in codes;
      LastExists(codes - {c}, prefix);
      var last :| IsLast(codes - {c}, prefix, last);
      LexTotal(c, c);
      if !HasPrefix(c, prefix) {
        assert IsLast(codes, prefix, last);
      } else if last.None? {
        assert IsLast(codes, prefix, Some(c));
      } else {
        LexTotal(c, last.value);
        if LexLeq(c, last.value) {
          assert IsLast(codes, prefix, last);
        } else {
          forall d | d in codes && HasPrefix(d, prefix) ensures LexLeq(d, c) {
            if d != c { LexTransitive(d, last.value, c); }
          }
          assert IsLast(codes, prefix, Some(c));
        }
      }
    }
  }

  ghost function LastCode(codes: set<string>, prefix: string): (last: Option<string>)
    ensures IsLast(codes, prefix, last)
  {
    LastExists(codes, prefix);
    var last :| IsLast(codes, prefix, last);
    last
  }

  ghost function NextCode(codes: set<string>, prefix: string): string {
    Following(prefix, LastCode(codes, prefix))
  }

  method GenerateIdentificationCode(codes: set<string>, profession: string) returns (code: string)
    ensures code == NextCode(codes, PrefixOf(profession))
  {
    var prefix := PrefixOf(profession);
    var last := FindLast(codes, prefix);
    LastUnique(codes, prefix, last, LastCode(codes, prefix));
    code := Following(prefix, last);
  }

  // ---------------------------------------------------------------------------------------------
  // When the generated code is new
  // ---------------------------------------------------------------------------------------------

  /** Every code with the prefix is the prefix, a dash and three digits. */
  ghost predicate ThreeDigit(codes: set<string>, prefix: string) {
    forall c | c in codes && HasPrefix(c, prefix) :: |c| == |prefix| + 4 && AllDigits(c[|prefix| + 1..])
  }

  /** While all codes of a prefix have three digits, the next one differs from every existing code. */
  lemma NextIsNew(codes: set<string>, prefix: string)
    requires ThreeDigit(codes, prefix)
    ensures NextCode(codes, prefix) !in codes
  {
    var last := LastCode(codes, prefix);
    var next := NextCode(codes, prefix);
    if next in codes {
      var p, k := prefix + "-", |prefix| + 1;
      var n := if last.Some? then Value(last.value[k..]) + 1 else 1;
      PaddedReadsBack(n);
      assert next == p + Pad3(Decimal(n)) && HasPrefix(next, prefix);
      assert next[k..] == Pad3(Decimal(n));
      assert last.value == p + last.value[k..] && next == p + next[k..];
      LexUnderPrefix(p, next[k..], last.value[k..]);
      ThreeDigitOrder(next[k..], last.value[k..]);
    }
  }

  /**
    A suffix after which the next code is new whatever other codes there are: a number that is zero, or has
    three digits or more and is not all nines; or no number and sorting below 001.
  */
  predicate Safe(suffix: string) {
    if AllDigits(suffix) then Value(suffix) == 0 || (|suffix| >= 3 && !AllNines(suffix)) else !LexLeq("001", suffix)
  }

  /** The suffix that follows: the next number, or 1 after what is no number. */
  function NextSuffix(suffix: string): string {
    Pad3(Decimal(if AllDigits(suffix) then Value(suffix) + 1 else 1))
  }

  lemma ShorterGrows(v: nat, short: nat, long: nat)
    requires 1 <= long && (v == 0 || short <= long)
    ensures v * short < (v + 1) * long
  {
    if v > 0 { Scaled(short, long, v); }
    assert (v + 1) * long == v * long + long;
  }

  lemma LongerShrinks(v: nat, short: nat, long: nat)
    requires 1 <= v && 2 * short < long
    ensures (v + 1) * short < v * long
  {
    Scaled(v + 1, 2 * v, short);
    assert 2 * v * short == v * (2 * short);
    assert v * (2 * short) < v * long;
  }

  lemma SafeSortsAbove(t: string)
    requires AllDigits(t) && Safe(t)
    ensures !LexLeq(NextSuffix(t), t)
  {
    var v, u := Value(t), NextSuffix(t);
    hide Decimal, Pad3, Pow10;
    PaddedReadsBack(v + 1);
    SafeLength(t);
    ShorterGrows(v, Pow10(|u|), Pow10(|t|));
    if LexLeq(u, t) { LexFractions(u, t); }
  }

  lemma SafeLength(t: string)
    requires AllDigits(t) && Safe(t)
    ensures Pow10(|t|) >= 1 && (Value(t) > 0 ==> Pow10(|NextSuffix(t)|) <= Pow10(|t|))
  {
    Pow10Grows(|t|, |t|);
    if Value(t) > 0 {
      ValueBelow(t);
      DecimalLength(Value(t) + 1, |t|);
      PaddedReadsBack(Value(t) + 1);
      Pow10Grows(|NextSuffix(t)|, |t|);
    }
  }

  lemma UnsafeSortsBelow(t: string)
    requires AllDigits(t) && !Safe(t)
    ensures LexLeq(NextSuffix(t), t)
  {
    var v, u := Value(t), NextSuffix(t);
    hide Decimal, Pad3, Pow10;
    PaddedReadsBack(v + 1);
    LexTotal(u, t);
    UnsafeLength(t);
    LongerShrinks(v, Pow10(|t|), Pow10(|u|));
    if LexLeq(t, u) { LexFractions(t, u); }
  }

  lemma UnsafeLength(t: string)
    requires AllDigits(t) && !Safe(t)
    ensures 2 * Pow10(|t|) < Pow10(|NextSuffix(t)|)
  {
    var u := NextSuffix(t);
    PaddedReadsBack(Value(t) + 1);
    if |t| >= 3 {
      ValueBelow(t);
      DecimalLength(Value(t) + 1, |t|);
    }
    Pow10Grows(|t|, |t|);
    Pow10Grows(|t| + 1, |u|);
  }

  lemma SafeMeansAbove(t: string)
    ensures Safe(t) <==> !LexLeq(NextSuffix(t), t)
  {
    if !AllDigits(t) {
      assert Decimal(1) == "1" && Pad3("1") == "001";
    } else if Safe(t) {
      SafeSortsAbove(t);
    } else {
      UnsafeSortsBelow(t);
    }
  }

  lemma FollowsAbove(prefix: string, m: string)
    requires HasPrefix(m, prefix)
    ensures var next := Following(prefix, Some(m));
            HasPrefix(next, prefix) && (Safe(m[|prefix| + 1..]) <==> !LexLeq(next, m))
  {
    var p, t := prefix + "-", m[|prefix| + 1..];
    SafeMeansAbove(t);
    LexUnderPrefix(p, NextSuffix(t), t);
    assert Following(prefix, Some(m)) == p + NextSuffix(t) && m == p + t;
  }

  lemma NextHasPrefix(codes: set<string>, prefix: string)
    ensures HasPrefix(NextCode(codes, prefix), prefix)
  {
    var last := LastCode(codes, prefix);
    CodeShape(prefix, if last.Some? && AllDigits(last.value[|prefix| + 1..]) then Value(last.value[|prefix| + 1..]) + 1 else 1);
  }

  /** The next code is taken if and only if the greatest code is unsafe and its follower is in use. */
  lemma CollidesIff(codes: set<string>, prefix: string)
    ensures NextCode(codes, prefix) in codes <==>
            var last := LastCode(codes, prefix);
            last.Some? && !Safe(last.value[|prefix| + 1..]) && Following(prefix, last) in codes
  {
    var last := LastCode(codes, prefix);
    if last.Some? {
      FollowsAbove(prefix, last.value);
    } else {
      CodeShape(prefix, 1);
    }
  }

  /** After greatest code m the next code is new whatever the other codes are, if and only if m's suffix is safe. */
  lemma AlwaysNewIff(prefix: string, m: string)
    requires HasPrefix(m, prefix)
    ensures (forall codes: set<string> | LastCode(codes, prefix) == Some(m) :: NextCode(codes, prefix) !in codes)
            <==> Safe(m[|prefix| + 1..])
  {
    FollowsAbove(prefix, m);
    if Safe(m[|prefix| + 1..]) {
      forall codes: set<string> | LastCode(codes, prefix) == Some(m) ensures NextCode(codes, prefix) !in codes {
        CollidesIff(codes, prefix);
      }
    } else {
      var next := Following(prefix, Some(m));
      var codes := {m, next};
      LexTotal(m, m);
      assert IsLast(codes, prefix, Some(m));
      LastUnique(codes, prefix, Some(m), LastCode(codes, prefix));
      assert NextCode(codes, prefix) in codes;
    }
  }

  /** Two codes are enough, though the greatest one ends in a number: 5 sorts above 006. */
  lemma ShortCodeCollides()
    ensures NextCode({"DOC-5", "DOC-006"}, "DOC") == "DOC-006"
  {
    var codes := {"DOC-5", "DOC-006"};
    assert HasPrefix("DOC-5", "DOC") && HasPrefix("DOC-006", "DOC");
    assert "DOC-" + "5" == "DOC-5" && "DOC-" + "006" == "DOC-006";
    LexUnderPrefix("DOC-", "006", "5");
    LexTotal("DOC-5", "DOC-5");
    assert IsLast(codes, "DOC", Some("DOC-5"));
    LastUnique(codes, "DOC", Some("DOC-5"), LastCode(codes, "DOC"));
    assert "DOC-5"[4..] == "5" && "5"[..0] == "" && Value("5") == 5;
    assert Decimal(6) == "6";
  }

  /** The codes issued so far when a prefix has been used n times in a row. */
  ghost predicate IssuedUpTo(codes: set<string>, prefix: string, n: nat) {
    forall c | HasPrefix(c, prefix) :: c in codes <==> exists k: nat :: 1 <= k <= n && c == Code(prefix, k)
  }

  lemma CodeShape(prefix: string, k: nat)
    ensures HasPrefix(Code(prefix, k), prefix)
    ensures Code(prefix, k)[|prefix| + 1..] == Pad3(Decimal(k))
    ensures |Code(prefix, k)| == |prefix| + 4 <==> k < 1000
  {
    PaddedReadsBack(k);
    assert Code(prefix, k)[..|prefix| + 1] == prefix + "-";
  }

  lemma LexAmongCodes(prefix: string, j: nat, k: nat)
    requires j < 1000 && k < 1000
    ensures LexLeq(Code(prefix, j), Code(prefix, k)) <==> j <= k
  {
    PaddedReadsBack(j);
    PaddedReadsBack(k);
    LexUnderPrefix(prefix + "-", Pad3(Decimal(j)), Pad3(Decimal(k)));
    ThreeDigitOrder(Pad3(Decimal(j)), Pad3(Decimal(k)));
  }

  lemma ThousandSortsLow(prefix: string)
    ensures LexLeq(Code(prefix, 1000), Code(prefix, 999)) && Code(prefix, 1000) != Code(prefix, 999)
  {
    assert Decimal(100) == "100" by { assert Decimal(10) == "10"; }
    assert Decimal(1000) == "1000";
    assert Decimal(99) == "99";
    assert Decimal(999) == "999";
    LexUnderPrefix(prefix + "-", "1000", "999");
    CodeShape(prefix, 1000);
    CodeShape(prefix, 999);
  }

  lemma IssuedSortsBelow(prefix: string, k: nat, n: nat)
    requires 1 <= k <= n <= 1000
    ensures LexLeq(Code(prefix, k), Code(prefix, if n < 1000 then n else n - 1))
  {
    if k == 1000 {
      ThousandSortsLow(prefix);
    } else {
      LexAmongCodes(prefix, k, if n < 1000 then n else n - 1);
    }
  }

  /** The number found last is the count so far, except that after 1000 codes it is stuck at 999. */
  lemma LastIssued(codes: set<string>, prefix: string, n: nat)
    requires IssuedUpTo(codes, prefix, n) && n <= 1000
    ensures LastCode(codes, prefix) == if n == 0 then None else Some(Code(prefix, if n < 1000 then n else n - 1))
  {
    if n == 0 {
      assert IsLast(codes, prefix, None);
      LastUnique(codes, prefix, None, LastCode(codes, prefix));
    } else {
      var top := if n < 1000 then n else n - 1;
      CodeShape(prefix, top);
      assert Code(prefix, top) in codes;
      forall c | c in codes && HasPrefix(c, prefix) ensures LexLeq(c, Code(prefix, top)) {
        var k: nat :| 1 <= k <= n && c == Code(prefix, k);
        IssuedSortsBelow(prefix, k, n);
      }
      assert IsLast(codes, prefix, Some(Code(prefix, top)));
      LastUnique(codes, prefix, Some(Code(prefix, top)), LastCode(codes, prefix));
    }
  }

  lemma FollowingCode(prefix: string, k: nat)
    ensures HasPrefix(Code(prefix, k), prefix) && Following(prefix, Some(Code(prefix, k))) == Code(prefix, k + 1)
  {
    CodeShape(prefix, k);
    PaddedReadsBack(k);
  }

  lemma NextAfter(codes: set<string>, prefix: string, n: nat)
    requires IssuedUpTo(codes, prefix, n) && n <= 1000
    ensures NextCode(codes, prefix) == Code(prefix, if n < 1000 then n + 1 else n)
  {
    LastIssued(codes, prefix, n);
    if n > 0 { FollowingCode(prefix, if n < 1000 then n else n - 1); }
  }

  /** Different numbers have different codes. */
  lemma CodesDiffer(prefix: string, j: nat, k: nat)
    requires Code(prefix, j) == Code(prefix, k)
    ensures j == k
  {
    CodeShape(prefix, j);
    CodeShape(prefix, k);
    PaddedReadsBack(j);
    PaddedReadsBack(k);
  }

  /**
    A prefix used from scratch yields codes 1, 2, 3, ... and the generated code is new exactly for the
    first thousand admissions: PPP-1000 sorts below PPP-999, so the thousand-and-first collides.
  */
  lemma NewExactlyBelowThousand(codes: set<string>, prefix: string, n: nat)
    requires IssuedUpTo(codes, prefix, n) && n <= 1000
    ensures NextCode(codes, prefix) == Code(prefix, if n < 1000 then n + 1 else n)
    ensures NextCode(codes, prefix) !in codes <==> n < 1000
    ensures n < 1000 ==> IssuedUpTo(codes + {NextCode(codes, prefix)}, prefix, n + 1)
  {
    NextAfter(codes, prefix, n);
    var k := if n < 1000 then n + 1 else n;
    CodeShape(prefix, k);
    if Code(prefix, k) in codes {
      var j: nat :| 1 <= j <= n && Code(prefix, k) == Code(prefix, j);
      CodesDiffer(prefix, j, k);
    }
    if n < 1000 { OneMoreIssued(codes, prefix, n); }
  }

  lemma OneMoreIssued(codes: set<string>, prefix: string, n: nat)
    requires IssuedUpTo(codes, prefix, n)
    ensures IssuedUpTo(codes + {Code(prefix, n + 1)}, prefix, n + 1)
  {
    forall c | HasPrefix(c, prefix)
      ensures c in codes + {Code(prefix, n + 1)} <==> exists k: nat :: 1 <= k <= n + 1 && c == Code(prefix, k)
    {
      if k: nat :| 1 <= k <= n + 1 && c == Code(prefix, k) {
        if k <= n { assert c in codes; }
      }
    }
  }

  /** Attempting k admissions of one prefix: a code already taken is refused and nothing is stored. */
  ghost function Attempt(codes: set<string>, prefix: string, k: nat): set<string> {
    if k == 0 then codes else Attempt(codes, prefix, k - 1) + {NextCode(Attempt(codes, prefix, k - 1), prefix)}
  }

  function Capped(k: nat): nat {
    if k < 1000 then k else 1000
  }

  lemma {:induction false} AttemptsIssue(codes: set<string>, prefix: string, k: nat)
    requires forall c | c in codes :: !HasPrefix(c, prefix)
    ensures IssuedUpTo(Attempt(codes, prefix, k), prefix, Capped(k))
  {
    if k == 0 {
      assert Attempt(codes, prefix, 0) == codes;
    } else {
      AttemptsIssue(codes, prefix, k - 1);
      OneMoreAttempt(Attempt(codes, prefix, k - 1), prefix, k - 1);
    }
  }

  lemma OneMoreAttempt(before: set<string>, prefix: string, k: nat)
    requires IssuedUpTo(before, prefix, Capped(k))
    ensures IssuedUpTo(before + {NextCode(before, prefix)}, prefix, Capped(k + 1))
  {
    NewExactlyBelowThousand(before, prefix, Capped(k));
    AddingAgain(before, NextCode(before, prefix));
    assert Capped(k + 1) == if Capped(k) < 1000 then Capped(k) + 1 else Capped(k);
  }

  lemma AddingAgain(codes: set<string>, code: string)
    ensures code in codes ==> codes + {code} == codes
  {}

  /**
    When the greatest code of a prefix does not end in a number, numbering starts over, and the next code
    collides if and only if number 1 is in use.
  */
  lemma NoNumberCollidesIff(codes: set<string>, prefix: string)
    requires LastCode(codes, prefix).Some? && !AllDigits(LastCode(codes, prefix).value[|prefix| + 1..])
    ensures NextCode(codes, prefix) == prefix + "-001"
    ensures NextCode(codes, prefix) in codes <==> prefix + "-001" in codes
  {
    assert Decimal(1) == "1";
    assert prefix + "-" + "001" == prefix + "-001";
  }

  /** A hand-entered code outside the three-digit form is enough to make the next code collide. */
  lemma HandMadeCodeCollides()
    ensures NextCode({"DOC-001", "DOC-ABC"}, "DOC") == "DOC-001"
  {
    var codes := {"DOC-001", "DOC-ABC"};
    assert HasPrefix("DOC-001", "DOC") && HasPrefix("DOC-ABC", "DOC");
    LexUnderPrefix("DOC-", "001", "ABC");
    assert "DOC-" + "001" == "DOC-001" && "DOC-" + "ABC" == "DOC-ABC";
    LexTotal("DOC-ABC", "DOC-ABC");
    assert IsLast(codes, "DOC", Some("DOC-ABC"));
    LastUnique(codes, "DOC", Some("DOC-ABC"), LastCode(codes, "DOC"));
    assert "DOC-ABC"[4..] == "ABC" && !IsDigit("ABC"[0]);
    assert Decimal(1) == "1";
  }
}
