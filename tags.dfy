/**
 * The tag `_oneExecution` attaches to an exception raised by the target
 * (symbolic/explore.py:263-274): "filename:line" of the innermost
 * traceback frame that does not belong to the instrumentation.
 */
module ExceptionTags {
  import opened Wrappers
  import opened Strings

  /** One entry of `traceback.extract_tb`; the function name and source text are not used. */
  datatype Frame = Frame(filename: string, line: nat)

  /** The file-name fragments that mark a frame as part of the tool rather than of the target. */
  const KEYWORDS: seq<string> := ["pyexz3.py", "symbolic", "pydev", "coverage"]

  /** Some instrumentation keyword occurs in the file name. */
  predicate Instrumented(filename: string) {
    exists k :: 0 <= k < |KEYWORDS| && Contains(filename, KEYWORDS[k])
  }

  /** A file name with an instrumentation keyword anywhere in it is instrumented. */
  lemma InstrumentedAnywhere(pre: string, k: nat, post: string)
    requires k < |KEYWORDS|
    ensures Instrumented(pre + KEYWORDS[k] + post)
  {
    var w := KEYWORDS[k];
    assert OccursAt(w, w, 0);
    ContainsWithin(w, w, pre, post);
  }

  function DigitChar(d: nat): char
    requires d < 10
  {
    "0123456789"[d]
  }

  function DigitValue(c: char): nat {
    if '0' <= c <= '9' then (c as int - '0' as int) else 0
  }

  predicate AllDigits(s: string) {
    forall i :: 0 <= i < |s| ==> '0' <= s[i] <= '9'
  }

  /** `str(n)` for a natural number: its decimal digits, without leading zeros. */
  function DecimalString(n: nat): (s: string)
    ensures |s| > 0 && AllDigits(s)
    ensures s[0] == '0' ==> s == "0"
  {
    if n < 10 then [DigitChar(n)]
    else DecimalString(n / 10) + [DigitChar(n % 10)]
  }

  /** The number a string of decimal digits denotes. */
  function ParseDecimal(s: string): nat {
    if |s| == 0 then 0
    else 10 * ParseDecimal(s[..|s| - 1]) + DigitValue(s[|s| - 1])
  }

  lemma {:induction false} ParseDecimalString(n: nat)
    ensures ParseDecimal(DecimalString(n)) == n
  {
    if n >= 10 {
      ParseDecimalString(n / 10);
      var s := DecimalString(n);
      assert s[..|s| - 1] == DecimalString(n / 10);
    }
  }

  lemma {:induction false} ParsePositive(s: string)
    requires |s| > 0 && AllDigits(s) && s[0] != '0'
    ensures ParseDecimal(s) > 0
  {
    if |s| > 1 {
      ParsePositive(s[..|s| - 1]);
    }
  }

  /** A digit string without leading zeros is the decimal form of the number it denotes. */
  lemma {:induction false} DecimalOfParse(s: string)
    requires |s| > 0 && AllDigits(s) && (s[0] == '0' ==> s == "0")
    ensures DecimalString(ParseDecimal(s)) == s
  {
    var init := s[..|s| - 1];
    var d := DigitValue(s[|s| - 1]);
    assert DigitChar(d) == s[|s| - 1];
    if |s| > 1 {
      assert init[0] == s[0];
      ParsePositive(init);
      DecimalOfParse(init);
      var n := ParseDecimal(s);
      assert n / 10 == ParseDecimal(init) && n % 10 == d;
      assert s == init + [s[|s| - 1]];
    }
  }

  /** `"{}:{}".format(filename, line)`. */
  function FrameTag(f: Frame): string {
    f.filename + ":" + DecimalString(f.line)
  }

  /** Splits a tag at its last ':' into a file name and a line number. */
  function ParseTag(tag: string): (r: Option<(string, nat)>)
    ensures r.Some? ==> FrameTag(Frame(r.value.0, r.value.1)) == tag
  {
    match LastIndexOf(tag, ':')
    case None => None
    case Some(i) =>
      var digits := tag[i + 1..];
      if |digits| > 0 && AllDigits(digits) && (digits[0] == '0' ==> digits == "0")
      then
        DecimalOfParse(digits);
        assert tag == tag[..i] + ":" + digits;
        Some((tag[..i], ParseDecimal(digits)))
      else None
  }

  /** A tag names its frame unambiguously, even when the file name itself contains ':'. */
  lemma TagRoundTrip(f: Frame)
    ensures ParseTag(FrameTag(f)) == Some((f.filename, f.line))
  {
    var tag := FrameTag(f);
    var digits := DecimalString(f.line);
    var n := |f.filename|;
    assert tag[n] == ':';
    assert forall j :: n < j < |tag| ==> tag[j] == digits[j - n - 1];
    assert LastIndexOf(tag, ':') == Some(n);
    assert tag[n + 1..] == digits && tag[..n] == f.filename;
    ParseDecimalString(f.line);
  }

  /** The innermost frame, if any, that is not part of the instrumentation. */
  function InnermostPlain(frames: seq<Frame>): (r: Option<nat>)
    ensures r.Some? ==> r.value < |frames| && !Instrumented(frames[r.value].filename)
    ensures r.Some? ==> forall j :: r.value < j < |frames| ==> Instrumented(frames[j].filename)
    ensures r.None? ==> forall j :: 0 <= j < |frames| ==> Instrumented(frames[j].filename)
  {
    if |frames| == 0 then None
    else if !Instrumented(frames[|frames| - 1].filename) then Some(|frames| - 1)
    else InnermostPlain(frames[..|frames| - 1])
  }

  /** The tag an exception with traceback `frames` receives, or `None` when every frame is instrumented. */
  function TagOf(frames: seq<Frame>): Option<string> {
    match InnermostPlain(frames)
    case None => None
    case Some(i) => Some(FrameTag(frames[i]))
  }

  /** The loop of symbolic/explore.py:267-273: walk the traceback from the innermost frame outwards. */
  method ExceptionTag(frames: seq<Frame>) returns (tag: Option<string>)
    ensures tag == TagOf(frames)
  {
    var i := |frames|;
    while i > 0
      invariant 0 <= i <= |frames|
      invariant forall j :: i <= j < |frames| ==> Instrumented(frames[j].filename)
    {
      i := i - 1;
      var f := frames[i];
      if Instrumented(f.filename) {
        continue;
      }
      InnermostPlainIs(frames, i);
      return Some(FrameTag(f));
    }
    InnermostPlainIsNone(frames);
    return None;
  }

  lemma InnermostPlainIs(frames: seq<Frame>, i: nat)
    requires i < |frames| && !Instrumented(frames[i].filename)
    requires forall j :: i < j < |frames| ==> Instrumented(frames[j].filename)
    ensures InnermostPlain(frames) == Some(i)
  {
  }

  lemma InnermostPlainIsNone(frames: seq<Frame>)
    requires forall j :: 0 <= j < |frames| ==> Instrumented(frames[j].filename)
    ensures InnermostPlain(frames) == None
  {
  }

  /** Instrumentation frames below the target's own frames do not change the tag. */
  lemma {:induction false} TagSkipsInstrumentation(frames: seq<Frame>, inner: seq<Frame>)
    requires forall j :: 0 <= j < |inner| ==> Instrumented(inner[j].filename)
    ensures InnermostPlain(frames + inner) == InnermostPlain(frames)
    ensures TagOf(frames + inner) == TagOf(frames)
  {
    if |inner| == 0 {
      assert frames + inner == frames;
    } else {
      var n := |inner| - 1;
      TagSkipsInstrumentation(frames, inner[..n]);
      var all := frames + inner;
      assert all[..|all| - 1] == frames + inner[..n];
      assert all[|all| - 1] == inner[n];
    }
  }
}
