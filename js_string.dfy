/**
 * JavaScript's relational operators on strings.
 *
 * The handlers compare "HH:mm" texts with `<`, `<=`, `>` and `>=` directly, so
 * the model needs the order JavaScript uses: lexicographic by character, a
 * proper prefix being smaller. (Dafny's own `<` on sequences means "proper
 * prefix", which is a different relation.)
 */
module JsString {

  /** `a < b` on JavaScript strings. */
  predicate Less(a: string, b: string)
  {
    if a == [] then b != []
    else if b == [] then false
    else if a[0] != b[0] then a[0] < b[0]
    else Less(a[1..], b[1..])
  }

  /** `a <= b` on JavaScript strings, which the language defines as `!(b < a)`. */
  predicate AtMost(a: string, b: string)
  {
    !Less(b, a)
  }

  lemma {:induction false} LessIrreflexive(a: string)
    ensures !Less(a, a)
  {
    if a != [] {
      LessIrreflexive(a[1..]);
    }
  }

  lemma {:induction false} LessTransitive(a: string, b: string, c: string)
    requires Less(a, b) && Less(b, c)
    ensures Less(a, c)
  {
    if a != [] && b != [] && c != [] && a[0] == b[0] && b[0] == c[0] {
      LessTransitive(a[1..], b[1..], c[1..]);
    }
  }

  lemma {:induction false} LessTrichotomy(a: string, b: string)
    ensures Less(a, b) || a == b || Less(b, a)
  {
    if a != [] && b != [] && a[0] == b[0] {
      LessTrichotomy(a[1..], b[1..]);
      if a[1..] == b[1..] {
        assert a == [a[0]] + a[1..] && b == [b[0]] + b[1..];
      }
    }
  }

  lemma {:induction false} LessAsymmetric(a: string, b: string)
    requires Less(a, b)
    ensures !Less(b, a)
  {
    if a != [] && b != [] && a[0] == b[0] {
      LessAsymmetric(a[1..], b[1..]);
    }
  }

  /** `<=` is "less than or equal": the two ways of writing it agree. */
  lemma AtMostIsLessOrEqual(a: string, b: string)
    ensures AtMost(a, b) <==> Less(a, b) || a == b
  {
    LessTrichotomy(a, b);
    if Less(a, b) {
      LessAsymmetric(a, b);
    }
    if a == b {
      LessIrreflexive(a);
    }
  }

  predicate IsDigit(c: char)
  {
    '0' <= c <= '9'
  }

  function DigitValue(c: char): nat
    requires IsDigit(c)
  {
    c as int - '0' as int
  }

  /** A zero-padded 24-hour wall-clock time "HH:mm", hours 00-23 and minutes 00-59. */
  predicate IsClock(s: string)
  {
    && |s| == 5
    && IsDigit(s[0]) && IsDigit(s[1]) && s[2] == ':' && IsDigit(s[3]) && IsDigit(s[4])
    && DigitValue(s[0]) * 10 + DigitValue(s[1]) <= 23
    && DigitValue(s[3]) <= 5
  }

  /** The minutes since midnight that an "HH:mm" text denotes. */
  function Minutes(s: string): (m: nat)
    requires IsClock(s)
    ensures m < 24 * 60
  {
    (DigitValue(s[0]) * 10 + DigitValue(s[1])) * 60 + DigitValue(s[3]) * 10 + DigitValue(s[4])
  }

  lemma LessOnHead(a: string, b: string)
    requires a != [] && b != [] && a[0] != b[0]
    ensures Less(a, b) <==> a[0] < b[0]
  {
  }

  lemma LessOnTail(a: string, b: string)
    requires a != [] && b != [] && a[0] == b[0]
    ensures Less(a, b) <==> Less(a[1..], b[1..])
  {
  }

  /**
   * On well-formed "HH:mm" texts, comparing the strings as JavaScript does
   * is comparing the times of day they denote.
   */
  lemma ClockOrder(a: string, b: string)
    requires IsClock(a) && IsClock(b)
    ensures Less(a, b) <==> Minutes(a) < Minutes(b)
  {
    var a0, a1, a3, a4 := DigitValue(a[0]), DigitValue(a[1]), DigitValue(a[3]), DigitValue(a[4]);
    var b0, b1, b3, b4 := DigitValue(b[0]), DigitValue(b[1]), DigitValue(b[3]), DigitValue(b[4]);
    if a[0] != b[0] {
      LessOnHead(a, b);
    } else {
      LessOnTail(a, b);
      var a', b' := a[1..], b[1..];
      if a[1] != b[1] {
        LessOnHead(a', b');
      } else {
        LessOnTail(a', b');
        var a'', b'' := a'[1..], b'[1..];
        LessOnTail(a'', b'');
        var a3', b3' := a''[1..], b''[1..];
        if a[3] != b[3] {
          LessOnHead(a3', b3');
        } else {
          LessOnTail(a3', b3');
          var a4', b4' := a3'[1..], b3'[1..];
          if a[4] != b[4] {
            LessOnHead(a4', b4');
          } else {
            LessOnTail(a4', b4');
            assert a4'[1..] == [] && b4'[1..] == [];
          }
        }
      }
    }
  }
}
