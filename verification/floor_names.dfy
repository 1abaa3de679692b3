/** Floor names in src/screens/HeatmapScreen.tsx: the blank-name test of
    `addNewFloor`, which uses JavaScript's `String.prototype.trim`, and the
    `Floor <n>` names of `createBlankFloorPlan`, which use the decimal
    rendering of an integer in a template literal. */
module FloorNames {

  /** The code points `String.prototype.trim` strips: the WhiteSpace and
      LineTerminator productions of the ECMAScript language specification. */
  predicate IsJsWhitespace(c: char)
  {
    var u := c as int;
    || u == 0x09 || u == 0x0A || u == 0x0B || u == 0x0C || u == 0x0D || u == 0x20
    || u == 0xA0 || u == 0x1680 || (0x2000 <= u <= 0x200A)
    || u == 0x2028 || u == 0x2029 || u == 0x202F || u == 0x205F
    || u == 0x3000 || u == 0xFEFF
  }

  /** Leading whitespace removed: the result is the suffix that starts at the
      first non-whitespace character. */
  function TrimStart(s: string): (t: string)
    ensures |t| <= |s| && t == s[|s| - |t|..]
    ensures forall i :: 0 <= i < |s| - |t| ==> IsJsWhitespace(s[i])
    ensures |t| > 0 ==> !IsJsWhitespace(t[0])
  {
    if |s| == 0 then s
    else if IsJsWhitespace(s[0]) then TrimStart(s[1..])
    else s
  }

  /** Trailing whitespace removed: the result is the prefix that ends at the
      last non-whitespace character. */
  function TrimEnd(s: string): (t: string)
    ensures |t| <= |s| && t == s[..|t|]
    ensures forall i :: |t| <= i < |s| ==> IsJsWhitespace(s[i])
    ensures |t| > 0 ==> !IsJsWhitespace(t[|t| - 1])
  {
    if |s| == 0 then s
    else if IsJsWhitespace(s[|s| - 1]) then TrimEnd(s[..|s| - 1])
    else s
  }

  /** `s.trim()`. */
  function Trim(s: string): string
  {
    TrimEnd(TrimStart(s))
  }

  /** A name trims to the empty string exactly when every character of it is
      whitespace: these are the names `addNewFloor` ignores. */
  lemma TrimEmptyIffBlank(s: string)
    ensures Trim(s) == "" <==> forall i :: 0 <= i < |s| ==> IsJsWhitespace(s[i])
  {
    var u := TrimStart(s);
    if Trim(s) == "" {
      forall i | 0 <= i < |s|
        ensures IsJsWhitespace(s[i])
      {
      }
    } else {
      var t := Trim(s);
      assert t[0] == u[0];
      assert s[|s| - |u|] == u[0];
    }
  }

  function DigitChar(d: nat): (c: char)
    requires d < 10
    ensures '0' <= c <= '9'
    ensures c as int == '0' as int + d
  {
    "0123456789"[d]
  }

  function DigitValue(c: char): nat
  {
    if '0' <= c <= '9' then (c as int - '0' as int) else 0
  }

  lemma DigitRoundTrip(d: nat)
    requires d < 10
    ensures DigitValue(DigitChar(d)) == d
  {
    assert DigitChar(d) as int == '0' as int + d;
  }

  /** `${n}` for a non-negative integer: its decimal digits, most significant
      first, without leading zeros. */
  function DecimalString(n: nat): (s: string)
    ensures |s| > 0
    ensures forall i :: 0 <= i < |s| ==> '0' <= s[i] <= '9'
    ensures n >= 10 <==> |s| > 1
    ensures n > 0 ==> s[0] != '0'
  {
    if n < 10 then [DigitChar(n)] else DecimalString(n / 10) + [DigitChar(n % 10)]
  }

  /** The value of a string of decimal digits. */
  function ParseDecimal(s: string): nat
  {
    if |s| == 0 then 0 else 10 * ParseDecimal(s[..|s| - 1]) + DigitValue(s[|s| - 1])
  }

  /** Parsing undoes rendering. */
  lemma {:induction false} DecimalRoundTrip(n: nat)
    ensures ParseDecimal(DecimalString(n)) == n
  {
    var s := DecimalString(n);
    if n < 10 {
      assert s[..0] == [];
      DigitRoundTrip(n);
    } else {
      assert s[..|s| - 1] == DecimalString(n / 10);
      DecimalRoundTrip(n / 10);
      DigitRoundTrip(n % 10);
    }
  }

  const FloorPrefix: string := "Floor "

  /** `Floor ${n}`. */
  function FloorName(n: nat): string
  {
    FloorPrefix + DecimalString(n)
  }

  /** Different numbers give different names. */
  lemma FloorNameInjective(a: nat, b: nat)
    ensures FloorName(a) == FloorName(b) <==> a == b
  {
    if FloorName(a) == FloorName(b) {
      assert DecimalString(a) == FloorName(a)[|FloorPrefix|..];
      assert DecimalString(b) == FloorName(b)[|FloorPrefix|..];
      DecimalRoundTrip(a);
      DecimalRoundTrip(b);
    }
  }

  /** The name `createBlankFloorPlan` gives, from the number of floors. */
  function BlankFloorNameAsWritten(keys: set<string>): string
  {
    FloorName(|keys| + 1)
  }

  /** The as-written name can already be taken by a floor the user named
      `Floor 2`; the new floor then replaces it and the count stays at one. */
  lemma BlankFloorNameCollision()
    ensures BlankFloorNameAsWritten({"Floor 2"}) == "Floor 2"
    ensures |{"Floor 2"} + {BlankFloorNameAsWritten({"Floor 2"})}| == 1
  {
    assert DecimalString(2) == "2";
  }

  /** The names `Floor m` with `m >= k` that are already taken. */
  ghost function TakenFrom(keys: set<string>, k: nat): set<string>
  {
    set name | name in keys && exists m: nat :: k <= m && name == FloorName(m)
  }

  /** The first free name `Floor m` with `m >= k`. */
  function FirstFreeFrom(keys: set<string>, k: nat): (m: nat)
    ensures k <= m
    ensures FloorName(m) !in keys
    ensures forall j: nat :: k <= j < m ==> FloorName(j) in keys
    decreases |TakenFrom(keys, k)|
  {
    if FloorName(k) !in keys then k
    else
      TakenFromShrinks(keys, k);
      var m := FirstFreeFrom(keys, k + 1);
      assert forall j: nat :: k + 1 <= j < m ==> FloorName(j) in keys;
      m
  }

  /** Passing a taken name removes exactly that name from the taken set. */
  lemma TakenFromShrinks(keys: set<string>, k: nat)
    requires FloorName(k) in keys
    ensures |TakenFrom(keys, k + 1)| < |TakenFrom(keys, k)|
  {
    var a := TakenFrom(keys, k);
    var b := TakenFrom(keys, k + 1);
    assert FloorName(k) in a;
    forall name | name in b
      ensures name in a && name != FloorName(k)
    {
      var m: nat :| k + 1 <= m && name == FloorName(m);
      FloorNameInjective(m, k);
    }
    forall name | name in a - {FloorName(k)}
      ensures name in b
    {
      var m: nat :| k <= m && name == FloorName(m);
    }
    assert b == a - {FloorName(k)};
  }

  /** The corrected blank-floor name: `Floor <count + 1>` when that is free,
      otherwise the next free `Floor <m>`. */
  function BlankFloorName(keys: set<string>): (name: string)
    ensures name !in keys
    ensures BlankFloorNameAsWritten(keys) !in keys ==> name == BlankFloorNameAsWritten(keys)
  {
    FloorName(FirstFreeFrom(keys, |keys| + 1))
  }

  /** With the corrected name every blank floor is a new floor. */
  lemma BlankFloorNameGrows(keys: set<string>)
    ensures |keys + {BlankFloorName(keys)}| == |keys| + 1
  {
  }
}
