/** Checkpoint file naming in run_vqa.py: after every epoch the model is
    saved to os.path.join(savePath, "pytorch_model_" + str(epochId) + ".bin").
    str() of an epoch index is its canonical decimal spelling, so distinct
    epochs write distinct files and no checkpoint overwrites another. */
module Checkpoint {
  import opened Results

  const FilePrefix: string := "pytorch_model_"
  const FileSuffix: string := ".bin"

  predicate IsDigit(c: char)
  {
    '0' <= c <= '9'
  }

  predicate AllDigits(s: string)
  {
    forall i :: 0 <= i < |s| ==> IsDigit(s[i])
  }

  /** A decimal spelling as str() produces it: at least one digit and no
      leading zero unless the number is 0 itself. */
  predicate Canonical(s: string)
  {
    |s| > 0 && AllDigits(s) && (|s| > 1 ==> s[0] != '0')
  }

  function DigitChar(d: nat): (c: char)
    requires d < 10
    ensures IsDigit(c)
  {
    (48 + d) as char
  }

  function DigitValue(c: char): (d: nat)
    requires IsDigit(c)
    ensures d < 10
  {
    (c as int - 48) as nat
  }

  /** str(n) for a natural number. */
  function NatToString(n: nat): (s: string)
    ensures Canonical(s)
    decreases n
  {
    if n < 10 then [DigitChar(n)]
    else
      var s := NatToString(n / 10) + [DigitChar(n % 10)];
      assert s[0] == NatToString(n / 10)[0];
      s
  }

  /** int(s) for a string of decimal digits. */
  function ParseDecimal(s: string): nat
    requires AllDigits(s)
  {
    if |s| == 0 then 0
    else ParseDecimal(s[..|s| - 1]) * 10 + DigitValue(s[|s| - 1])
  }

  /** Reading back a spelled-out number gives the number. */
  lemma {:induction false} ParseNatToString(n: nat)
    ensures ParseDecimal(NatToString(n)) == n
    decreases n
  {
    if n >= 10 {
      var s := NatToString(n);
      assert s[..|s| - 1] == NatToString(n / 10);
      ParseNatToString(n / 10);
    }
  }

  lemma {:induction false} ParseDecimalPositive(s: string)
    requires AllDigits(s) && |s| > 0 && s[0] != '0'
    ensures ParseDecimal(s) > 0
  {
    if |s| > 1 {
      ParseDecimalPositive(s[..|s| - 1]);
    }
  }

  /** Spelling out a parsed canonical string gives the string back. */
  lemma {:induction false} NatToStringParse(s: string)
    requires Canonical(s)
    ensures NatToString(ParseDecimal(s)) == s
  {
    if |s| > 1 {
      var t := s[..|s| - 1];
      assert t[0] == s[0];
      NatToStringParse(t);
      ParseDecimalPositive(t);
      var n := ParseDecimal(s);
      assert n / 10 == ParseDecimal(t) && n % 10 == DigitValue(s[|s| - 1]);
      assert s == t + [s[|s| - 1]];
    }
  }

  /** Two numbers with the same decimal spelling are equal. */
  lemma NatToStringInjective(a: nat, b: nat)
    requires NatToString(a) == NatToString(b)
    ensures a == b
  {
    ParseNatToString(a);
    ParseNatToString(b);
  }

  /** "pytorch_model_" + str(epochId) + ".bin". */
  function CheckpointFileName(epochId: nat): (r: string)
    ensures |r| > |FilePrefix| + |FileSuffix|
    ensures r[..|FilePrefix|] == FilePrefix && r[|r| - |FileSuffix|..] == FileSuffix
    ensures Canonical(r[|FilePrefix|..|r| - |FileSuffix|])
    ensures ParseDecimal(r[|FilePrefix|..|r| - |FileSuffix|]) == epochId
  {
    var digits := NatToString(epochId);
    var r := FilePrefix + digits + FileSuffix;
    assert r[|FilePrefix|..|r| - |FileSuffix|] == digits;
    ParseNatToString(epochId);
    r
  }

  /** The epoch a checkpoint file name was written for, if it is one. */
  function ParseCheckpointFileName(name: string): (r: Option<nat>)
    ensures r.Some? ==> CheckpointFileName(r.value) == name
  {
    var lo, hi := |FilePrefix|, |name| - |FileSuffix|;
    if lo <= hi && name[..lo] == FilePrefix && name[hi..] == FileSuffix && Canonical(name[lo..hi]) then
      NatToStringParse(name[lo..hi]);
      assert name == name[..lo] + name[lo..hi] + name[hi..];
      Some(ParseDecimal(name[lo..hi]))
    else None
  }

  /** Every epoch's file name parses back to that epoch. */
  lemma CheckpointFileNameRoundTrip(epochId: nat)
    ensures ParseCheckpointFileName(CheckpointFileName(epochId)) == Some(epochId)
  {
    var name := CheckpointFileName(epochId);
    var digits := NatToString(epochId);
    var lo, hi := |FilePrefix|, |name| - |FileSuffix|;
    assert name[..lo] == FilePrefix;
    assert name[lo..hi] == digits;
    assert name[hi..] == FileSuffix;
    ParseNatToString(epochId);
  }

  /** Distinct epochs write distinct checkpoint files. */
  lemma CheckpointFileNameInjective(a: nat, b: nat)
    requires a != b
    ensures CheckpointFileName(a) != CheckpointFileName(b)
  {
    CheckpointFileNameRoundTrip(a);
    CheckpointFileNameRoundTrip(b);
  }

  /** os.path.join(dir, name) on POSIX: an absolute name replaces dir, and a
      separator is inserted unless dir is empty or already ends in one. */
  function PathJoin(dir: string, name: string): (r: string)
    ensures |name| > 0 && name[0] == '/' ==> r == name
    ensures (|name| == 0 || name[0] != '/') ==> exists sep :: sep in {"", "/"} && r == dir + sep + name
    ensures (|name| == 0 || name[0] != '/') && (|dir| == 0 || dir[|dir| - 1] == '/') ==> r == dir + name
    ensures (|name| == 0 || name[0] != '/') && |dir| > 0 && dir[|dir| - 1] != '/' ==> r == dir + "/" + name
  {
    if |name| > 0 && name[0] == '/' then name
    else if |dir| == 0 || dir[|dir| - 1] == '/' then
      assert dir + "" + name == dir + name;
      dir + name
    else dir + "/" + name
  }

  /** The checkpoint path of an epoch inside the run's save directory. */
  function CheckpointPath(savePath: string, epochId: nat): (r: string)
    ensures |r| >= |CheckpointFileName(epochId)|
    ensures r[..|r| - |CheckpointFileName(epochId)|] in {savePath, savePath + "/"}
    ensures ParseCheckpointFileName(r[|r| - |CheckpointFileName(epochId)|..]) == Some(epochId)
  {
    var name := CheckpointFileName(epochId);
    var r := PathJoin(savePath, name);
    assert r[|r| - |name|..] == name;
    CheckpointFileNameRoundTrip(epochId);
    r
  }

  /** Within one save directory no two epochs share a checkpoint path. */
  lemma CheckpointPathInjective(savePath: string, a: nat, b: nat)
    requires a != b
    ensures CheckpointPath(savePath, a) != CheckpointPath(savePath, b)
  {
    var na, nb := CheckpointFileName(a), CheckpointFileName(b);
    CheckpointFileNameInjective(a, b);
    assert na[0] == 'p' && nb[0] == 'p';
    var pa, pb := CheckpointPath(savePath, a), CheckpointPath(savePath, b);
    var prefix := if |savePath| == 0 || savePath[|savePath| - 1] == '/' then savePath else savePath + "/";
    assert pa == prefix + na && pb == prefix + nb;
    assert pa[|prefix|..] == na && pb[|prefix|..] == nb;
  }
}
