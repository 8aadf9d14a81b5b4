/** Parsing of face indices: Rust's `usize::from_str` on a 64-bit target. */
module Decimal {
  import opened Wrappers

  /** `usize::MAX` on a 64-bit target. */
  const USIZE_MAX: nat := 0xFFFF_FFFF_FFFF_FFFF

  predicate IsDigit(c: char)
  {
    '0' <= c <= '9'
  }

  predicate AllDigits(s: string)
  {
    forall i :: 0 <= i < |s| ==> IsDigit(s[i])
  }

  /** The number a string of ASCII decimal digits denotes, most significant
      first; `None` if some character is not a digit. */
  function DigitsValue(ds: string): Option<nat>
  {
    if ds == [] then Some(0)
    else
      var last := ds[|ds| - 1];
      match DigitsValue(ds[..|ds| - 1])
      case Some(v) => if IsDigit(last) then Some(v * 10 + (last as int - '0' as int)) else None
      case None => None
  }

  /** `usize::from_str`: an optional leading `+`, then at least one ASCII
      digit and nothing else; a value above `usize::MAX` overflows and is
      refused. Leading zeros are accepted. */
  function ParseUsize(s: string): (r: Option<nat>)
    ensures r.Some? ==> r.value <= USIZE_MAX
  {
    var ds := if s != [] && s[0] == '+' then s[1..] else s;
    if ds == [] then None
    else
      match DigitsValue(ds)
      case Some(v) => if v <= USIZE_MAX then Some(v) else None
      case None => None
  }

  lemma {:induction false} DigitsValueDigits(ds: string)
    ensures DigitsValue(ds).Some? <==> AllDigits(ds)
  {
    if ds != [] {
      var front := ds[..|ds| - 1];
      DigitsValueDigits(front);
      assert forall i :: 0 <= i < |front| ==> front[i] == ds[i];
    }
  }

  /** What `usize::from_str` accepts: a non-empty string of ASCII digits,
      optionally after one `+`. */
  lemma ParseUsizeAccepts(s: string)
    ensures ParseUsize(s).Some? ==> s != [] && (s[0] == '+' || IsDigit(s[0])) && AllDigits(s[1..])
    ensures ParseUsize(s).Some? <==>
      var ds := if s != [] && s[0] == '+' then s[1..] else s;
      ds != [] && AllDigits(ds) && DigitsValue(ds).Some? && DigitsValue(ds).value <= USIZE_MAX
  {
    var ds := if s != [] && s[0] == '+' then s[1..] else s;
    DigitsValueDigits(ds);
    if ParseUsize(s).Some? && s[0] != '+' {
      assert s[0] == ds[0];
      assert forall i :: 0 <= i < |s[1..]| ==> s[1..][i] == ds[i + 1];
    }
  }

  /** The canonical decimal spelling of `n`: no sign, no leading zeros. */
  function ShowNat(n: nat): (s: string)
    ensures s != [] && AllDigits(s)
  {
    var d := [('0' as int + n % 10) as char];
    if n < 10 then d else ShowNat(n / 10) + d
  }

  lemma {:induction false} ShowNatValue(n: nat)
    ensures DigitsValue(ShowNat(n)) == Some(n)
  {
    var s := ShowNat(n);
    assert s[..|s| - 1] == (if n < 10 then [] else ShowNat(n / 10));
    if n >= 10 {
      ShowNatValue(n / 10);
    }
  }

  /** A digit string without leading zeros is the canonical spelling of
      the number it denotes. */
  lemma {:induction false} ShowDigits(ds: string)
    requires ds != [] && AllDigits(ds) && (|ds| == 1 || ds[0] != '0')
    ensures DigitsValue(ds).Some? && ShowNat(DigitsValue(ds).value) == ds
  {
    var front, last := ds[..|ds| - 1], ds[|ds| - 1];
    var d := last as int - '0' as int;
    assert 0 <= d < 10 && (('0' as int + d) as char) == last;
    if front == [] {
      assert ds == [last];
    } else {
      assert front[0] == ds[0];
      assert AllDigits(front) by {
        assert forall i :: 0 <= i < |front| ==> front[i] == ds[i];
      }
      ShowDigits(front);
      var v := DigitsValue(front).value;
      assert v != 0;
      var n := v * 10 + d;
      assert n / 10 == v && n % 10 == d;
      assert ShowNat(n) == front + [last];
      assert front + [last] == ds;
    }
  }

  /** Every index up to `usize::MAX` written in decimal parses back to
      itself, also after a `+`, and nothing above it parses. */
  lemma ParseShowNat(n: nat)
    ensures ParseUsize(ShowNat(n)) == if n <= USIZE_MAX then Some(n) else None
    ensures ParseUsize("+" + ShowNat(n)) == ParseUsize(ShowNat(n))
  {
    ShowNatValue(n);
    assert ("+" + ShowNat(n))[1..] == ShowNat(n);
  }

  /** A leading `-` is refused: the type is unsigned. */
  lemma ParseRejectsMinus(s: string)
    ensures ParseUsize("-" + s) == None
  {
    var m := "-" + s;
    assert m[0] == '-';
    DigitsValueDigits(m);
    assert !IsDigit(m[0]);
  }

  lemma {:induction false} LeadingZeroValue(ds: string)
    ensures DigitsValue("0" + ds) == DigitsValue(ds)
  {
    var z := "0" + ds;
    if ds != [] {
      assert z[..|z| - 1] == "0" + ds[..|ds| - 1];
      LeadingZeroValue(ds[..|ds| - 1]);
    }
  }

  /** A leading zero does not change the index a digit string denotes. */
  lemma ParseLeadingZero(ds: string)
    requires ds != [] && ds[0] != '+'
    ensures ParseUsize("0" + ds) == ParseUsize(ds)
  {
    LeadingZeroValue(ds);
  }
}
