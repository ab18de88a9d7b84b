/** Text helpers the library code relies on: decimal formatting of integers
    (`str(n)` and `'{:02d}'.format(n)`), parsing them back (`int(s)` on
    plain digit strings), and the file-name stem of a path
    (`os.path.splitext(os.path.basename(p))[0]` on POSIX paths). */
module Strings {
  import opened Wrappers

  predicate IsDigit(c: char) { '0' <= c <= '9' }

  predicate IsDigits(s: string) { |s| > 0 && forall i :: 0 <= i < |s| ==> IsDigit(s[i]) }

  function DigitChar(d: nat): (c: char)
    requires d < 10
    ensures IsDigit(c) && c as int - '0' as int == d
  {
    ('0' as int + d) as char
  }

  /** `str(n)` for a non-negative integer. */
  function NatToString(n: nat): (s: string)
    ensures IsDigits(s)
    ensures n < 10 <==> |s| == 1
    ensures 10 <= n < 100 <==> |s| == 2
  {
    if n < 10 then [DigitChar(n)] else NatToString(n / 10) + [DigitChar(n % 10)]
  }

  /** The value of a string of decimal digits. */
  function DigitsValue(s: string): nat
    requires forall i :: 0 <= i < |s| ==> IsDigit(s[i])
  {
    if s == [] then 0
    else
      var last := s[|s| - 1];
      assert IsDigit(last);
      DigitsValue(s[..|s| - 1]) * 10 + (last as int - '0' as int)
  }

  /** `int(s)` restricted to plain digit strings; None where Python raises ValueError
      (signs and surrounding white space, which `int` also accepts, are not modelled). */
  function ParseNat(s: string): Option<nat>
  {
    if IsDigits(s) then Some(DigitsValue(s)) else None
  }

  /** `'{:02d}'.format(n)`: at least two digits, zero-padded. */
  function Pad2(n: nat): string
  {
    if n < 10 then "0" + NatToString(n) else NatToString(n)
  }

  lemma {:induction false} DigitsValueOfNatToString(n: nat)
    ensures DigitsValue(NatToString(n)) == n
  {
    if n >= 10 {
      var s := NatToString(n);
      assert s[..|s| - 1] == NatToString(n / 10);
      DigitsValueOfNatToString(n / 10);
    }
  }

  /** Decimal formatting and parsing are inverse. */
  lemma ParseNatToString(n: nat)
    ensures ParseNat(NatToString(n)) == Some(n)
  {
    DigitsValueOfNatToString(n);
  }

  lemma {:induction false} LeadingZeroIgnored(s: string)
    requires forall i :: 0 <= i < |s| ==> IsDigit(s[i])
    ensures DigitsValue("0" + s) == DigitsValue(s)
  {
    if s != [] {
      var t := "0" + s;
      assert t[..|t| - 1] == "0" + s[..|s| - 1];
      LeadingZeroIgnored(s[..|s| - 1]);
    }
  }

  /** The zero-padded form parses back to the number, and is exactly two
      characters for every number below 100. */
  lemma ParsePad2(n: nat)
    ensures ParseNat(Pad2(n)) == Some(n)
    ensures n < 100 ==> |Pad2(n)| == 2
  {
    DigitsValueOfNatToString(n);
    if n < 10 {
      LeadingZeroIgnored(NatToString(n));
    }
  }

  /** The text after the last '/' of a path (`os.path.basename`). */
  function BaseName(p: string): (b: string)
    ensures '/' !in b
    ensures |b| <= |p| && b == p[|p| - |b|..]
  {
    if p == [] || p[|p| - 1] == '/' then [] else BaseName(p[..|p| - 1]) + [p[|p| - 1]]
  }

  /** Index of the last occurrence of `c` in `s`. */
  function LastIndexOf(s: string, c: char): (r: Option<nat>)
    ensures r.Some? ==> r.value < |s| && s[r.value] == c && c !in s[r.value + 1..]
    ensures r.None? ==> c !in s
  {
    if s == [] then None
    else if s[|s| - 1] == c then Some(|s| - 1)
    else LastIndexOf(s[..|s| - 1], c)
  }

  /** `os.path.splitext(b)[0]`: drop the text from the last '.', unless only
      dots precede it (then the name has no extension). */
  function SplitExtRoot(b: string): string
  {
    match LastIndexOf(b, '.')
    case None => b
    case Some(i) => if exists j :: 0 <= j < i && b[j] != '.' then b[..i] else b
  }

  /** `os.path.splitext(os.path.basename(p))[0]`. */
  function Stem(p: string): string
  {
    SplitExtRoot(BaseName(p))
  }

  /** The stem of `folder/name.ext` is `name` whenever `name` holds no '/' and
      does not start with a dot, and the extension holds no '.' or '/'. */
  lemma StemOfFilePath(folder: string, name: string, ext: string)
    requires '/' !in name && '/' !in ext && '.' !in ext
    requires |name| > 0 && name[0] != '.'
    ensures Stem(folder + "/" + name + "." + ext) == name
  {
    var p := folder + "/" + name + "." + ext;
    var tail := name + "." + ext;
    BaseNameOfSuffix(folder + "/", tail);
    assert p == (folder + "/") + tail;
    assert BaseName(p) == tail;
    LastIndexOfSuffix(name + ".", ext, '.');
    assert (name + ".")[|name|] == '.';
    assert LastIndexOf(name + ".", '.') == Some(|name|);
    assert LastIndexOf(tail, '.') == Some(|name|) by {
      assert tail == (name + ".") + ext;
    }
    assert tail[0] != '.';
    assert tail[..|name|] == name;
  }

  lemma {:induction false} BaseNameOfSuffix(prefix: string, tail: string)
    requires |prefix| > 0 && prefix[|prefix| - 1] == '/' && '/' !in tail
    ensures BaseName(prefix + tail) == tail
  {
    if tail == [] {
      assert prefix + tail == prefix;
    } else {
      var p := prefix + tail;
      assert p[..|p| - 1] == prefix + tail[..|tail| - 1];
      BaseNameOfSuffix(prefix, tail[..|tail| - 1]);
    }
  }

  lemma {:induction false} LastIndexOfSuffix(s: string, t: string, c: char)
    requires c !in t
    ensures LastIndexOf(s + t, c) == LastIndexOf(s, c)
  {
    if t == [] {
      assert s + t == s;
    } else {
      var p := s + t;
      assert p[..|p| - 1] == s + t[..|t| - 1];
      LastIndexOfSuffix(s, t[..|t| - 1], c);
    }
  }
}
