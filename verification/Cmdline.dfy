/** The canonical kernel command line of a bzImage machine (crates/dh-vmm/src/config.rs). A command line is
    text with one character per byte. */
module Cmdline {
  import opened Common

  const MAX_CMDLINE: nat := 4096

  const FORCED: string := "console=ttyS0 nokaslr norandmaps random.trust_cpu=off random.trust_bootloader=on page_alloc.shuffle=0 notsc tsc=unstable clocksource=jiffies vdso=0 lpj=4096 noapictimer default_hugepagesz=2M hugepagesz=2M hugepages=1 init=/init"

  const BASELINE_KEYS: set<string> := {
    "console", "nokaslr", "norandmaps", "random.trust_cpu", "random.trust_bootloader", "page_alloc.shuffle", "notsc",
    "tsc", "clocksource", "vdso", "lpj", "noapictimer", "default_hugepagesz", "hugepagesz", "hugepages", "init"}

  datatype CmdlineError =
    | Nul | NonAscii | EmptyToken | BaselineOverride | DuplicateToken | UnsupportedToken | TooLong | NotCanonical

  /** What extras may say. */
  datatype Extras = Extras(quiet: bool, loglevel: Option<nat>)

  predicate Sane(x: Extras)
  {
    x.loglevel.Some? ==> x.loglevel.value <= 7
  }

  // ---- tokens ------------------------------------------------------------------------

  predicate IsSpace(c: char)
  {
    c == ' ' || c == '\t' || c == '\n' || c == '\r' || c == 12 as char
  }

  /** Split at every white-space character. */
  function Split(s: string): (ts: seq<string>)
    ensures |ts| > 0
  {
    if |s| == 0 then [""]
    else if IsSpace(s[0]) then [""] + Split(s[1..])
    else var ts := Split(s[1..]); [[s[0]] + ts[0]] + ts[1..]
  }

  predicate NoSpace(s: string)
  {
    forall i :: 0 <= i < |s| ==> !IsSpace(s[i])
  }

  lemma {:induction false} SplitWord(a: string)
    requires NoSpace(a)
    ensures Split(a) == [a]
  {
    if |a| > 0 {
      SplitWord(a[1..]);
      assert [a[0]] + a[1..] == a;
    }
  }

  /** A word, a space, and the rest. */
  lemma {:induction false} SplitFirst(a: string, b: string)
    requires NoSpace(a)
    ensures Split(a + " " + b) == [a] + Split(b)
  {
    var s := a + " " + b;
    if |a| == 0 {
      assert s[1..] == b;
    } else {
      SplitFirst(a[1..], b);
      assert s[1..] == a[1..] + " " + b && s[0] == a[0];
      assert [a[0]] + a[1..] == a;
    }
  }

  /** The key of a token: what comes before the first `=`. */
  function KeyOf(token: string): string
  {
    if |token| == 0 || token[0] == '=' then "" else [token[0]] + KeyOf(token[1..])
  }

  // ---- extras ------------------------------------------------------------------------

  /** One token added to what has been parsed. */
  function AddToken(x: Extras, token: string): Result<Extras, CmdlineError>
  {
    if KeyOf(token) in BASELINE_KEYS then Err(BaselineOverride)
    else if token == "quiet" then
      (if x.quiet then Err(DuplicateToken) else Ok(x.(quiet := true)))
    else if "loglevel=" <= token then
      (if x.loglevel.Some? then Err(DuplicateToken)
       else if |token| != 10 || !('0' <= token[9] <= '7') then Err(UnsupportedToken)
       else Ok(x.(loglevel := Some(token[9] as int - '0' as int))))
    else Err(UnsupportedToken)
  }

  function AddTokens(x: Extras, tokens: seq<string>): Result<Extras, CmdlineError>
    decreases |tokens|
  {
    if |tokens| == 0 then Ok(x)
    else match AddToken(x, tokens[0])
         case Err(e) => Err(e)
         case Ok(y) => AddTokens(y, tokens[1..])
  }

  predicate HasEmptyToken(s: string)
    requires |s| > 0
  {
    IsSpace(s[0]) || IsSpace(s[|s| - 1]) || exists i :: 0 <= i < |s| - 1 && IsSpace(s[i]) && IsSpace(s[i + 1])
  }

  /** `parse_bzimage_cmdline_extras` */
  function ParseExtras(s: string): Result<Extras, CmdlineError>
  {
    if s == "" then Ok(Extras(false, None))
    else if 0 as char in s then Err(Nul)
    else if exists c :: c in s && c as int >= 128 then Err(NonAscii)
    else if HasEmptyToken(s) then Err(EmptyToken)
    else AddTokens(Extras(false, None), Split(s))
  }

  function LevelText(level: nat): string
    requires level <= 7
  {
    "loglevel=" + [('0' as int + level) as char]
  }

  /** The one way to write extras. */
  function Written(x: Extras): string
    requires Sane(x)
  {
    if x.quiet && x.loglevel.Some? then "quiet" + " " + LevelText(x.loglevel.value)
    else if x.quiet then "quiet"
    else if x.loglevel.Some? then LevelText(x.loglevel.value)
    else ""
  }

  /** `compose_bzimage_cmdline` over any baseline. */
  function ComposeOver(f: string, x: Extras): (s: string)
    requires Sane(x)
  {
    f + (if x.quiet then " " + "quiet" else "") + (if x.loglevel.Some? then " " + LevelText(x.loglevel.value) else "")
  }

  /** The same over the forced one. */
  function Compose(x: Extras): (s: string)
    requires Sane(x)
  {
    ComposeOver(FORCED, x)
  }

  /** Whatever extras are accepted are sane. */
  lemma {:induction false} AddTokensSane(x: Extras, tokens: seq<string>)
    requires Sane(x)
    ensures AddTokens(x, tokens).Ok? ==> Sane(AddTokens(x, tokens).value)
    decreases |tokens|
  {
    if |tokens| > 0 && AddToken(x, tokens[0]).Ok? { AddTokensSane(AddToken(x, tokens[0]).value, tokens[1..]); }
  }

  /** `canonicalize_bzimage_cmdline_extras`; the composed line is never too long. */
  function Canonicalize(s: string): Result<string, CmdlineError>
  {
    match ParseExtras(s)
    case Err(e) => Err(e)
    case Ok(x) =>
      AddTokensSane(Extras(false, None), Split(s));
      if |Compose(x)| > MAX_CMDLINE then Err(TooLong) else Ok(Compose(x))
  }

  /** What follows `f` and a space. */
  function After(f: string, s: string): Option<string>
  {
    if f <= s && |s| > |f| && s[|f|] == ' ' then Some(s[|f| + 1..]) else None
  }

  lemma AfterIs(f: string, w: string)
    ensures After(f, f + (" " + w)) == Some(w)
  {
    assert (f + (" " + w))[|f| + 1..] == w;
  }

  /** `bzimage_cmdline_extras_from_canonical` */
  function ExtrasFromCanonical(cmdline: string): Result<string, CmdlineError>
  {
    if cmdline == FORCED then Ok("")
    else
      match After(FORCED, cmdline)
      case None => Err(NotCanonical)
      case Some(extras) =>
        match Canonicalize(extras)
        case Err(e) => Err(e)
        case Ok(c) => if c != cmdline then Err(NotCanonical) else Ok(extras)
  }

  // ---- the fixed point ------------------------------------------------------------------

  lemma LevelToken(x: Extras, level: nat)
    requires x.loglevel.None? && level <= 7
    ensures NoSpace(LevelText(level)) && AddToken(x, LevelText(level)) == Ok(x.(loglevel := Some(level)))
  {
    var t := LevelText(level);
    assert |t| == 10 && t[..9] == "loglevel=" && t[9] == ('0' as int + level) as char;
    LevelKey(t);
  }

  lemma LevelKey(t: string)
    requires |t| == 10 && t[..9] == "loglevel="
    ensures KeyOf(t) == "loglevel"
  {
    assert t == "loglevel=" + t[9..];
    KeyBefore("loglevel", t[8..]);
    assert t == "loglevel" + t[8..];
  }

  lemma {:induction false} KeyBefore(a: string, b: string)
    requires (forall i :: 0 <= i < |a| ==> a[i] != '=') && |b| > 0 && b[0] == '='
    ensures KeyOf(a + b) == a
  {
    if |a| == 0 {
      assert a + b == b;
    } else {
      assert (a + b)[1..] == a[1..] + b;
      KeyBefore(a[1..], b);
    }
  }

  lemma QuietToken(x: Extras)
    requires !x.quiet
    ensures NoSpace("quiet") && AddToken(x, "quiet") == Ok(x.(quiet := true))
  {
    KeyAll("quiet");
  }

  lemma {:induction false} KeyAll(a: string)
    requires forall i :: 0 <= i < |a| ==> a[i] != '='
    ensures KeyOf(a) == a
  {
    if |a| > 0 { KeyAll(a[1..]); }
  }

  /** A word: visible ASCII. */
  predicate Word(a: string)
  {
    |a| > 0 && NoSpace(a) && forall i :: 0 <= i < |a| ==> 0 < a[i] as int < 128
  }

  lemma ParseWord(a: string)
    requires Word(a)
    ensures ParseExtras(a) == AddTokens(Extras(false, None), [a])
  {
    SplitWord(a);
  }

  lemma ParseTwo(a: string, b: string)
    requires Word(a) && Word(b)
    ensures ParseExtras(a + " " + b) == AddTokens(Extras(false, None), [a, b])
  {
    var s := a + " " + b;
    SplitFirst(a, b);
    SplitWord(b);
    assert !HasEmptyToken(s);
    assert forall c :: c in s ==> 0 < c as int < 128;
  }

  lemma AddTwo(x: Extras, a: string, b: string)
    requires AddToken(x, a).Ok?
    ensures AddTokens(x, [a, b]) == AddToken(AddToken(x, a).value, b)
  {
    assert [a, b][1..] == [b];
    var y := AddToken(x, a).value;
    assert AddTokens(y, [b]) == match AddToken(y, b) case Err(e) => Err(e) case Ok(z) => AddTokens(z, [b][1..]);
  }

  lemma AddOne(x: Extras, a: string)
    ensures AddTokens(x, [a]) == AddToken(x, a)
  {
    assert [a][1..] == [];
  }

  lemma LevelWord(level: nat)
    requires level <= 7
    ensures Word(LevelText(level))
  {}

  /** What is written parses to what it says. */
  lemma WrittenParses(x: Extras)
    requires Sane(x)
    ensures ParseExtras(Written(x)) == Ok(x)
  {
    var none := Extras(false, None);
    QuietToken(none);
    if x.loglevel.Some? {
      var t := LevelText(x.loglevel.value);
      LevelWord(x.loglevel.value);
      LevelToken(none.(quiet := x.quiet), x.loglevel.value);
      if x.quiet {
        ParseTwo("quiet", t);
        AddTwo(none, "quiet", t);
      } else {
        ParseWord(t);
        AddOne(none, t);
      }
    } else if x.quiet {
      ParseWord("quiet");
      AddOne(none, "quiet");
    }
  }

  lemma ComposeOverIs(f: string, x: Extras)
    requires Sane(x)
    ensures ComposeOver(f, x) == if Written(x) == "" then f else f + (" " + Written(x))
    ensures |ComposeOver(f, x)| <= |f| + 17
  {}

  lemma ComposeIs(x: Extras)
    requires Sane(x)
    ensures Compose(x) == if Written(x) == "" then FORCED else FORCED + (" " + Written(x))
    ensures |Compose(x)| <= MAX_CMDLINE
  {
    ComposeOverIs(FORCED, x);
    assert |FORCED| <= 4000;
  }

  lemma CanonicalizedComposes(s: string) returns (x: Extras)
    requires Canonicalize(s).Ok?
    ensures Sane(x) && Canonicalize(s) == Ok(Compose(x))
  {
    AddTokensSane(Extras(false, None), Split(s));
    x := ParseExtras(s).value;
  }

  lemma CanonicalComposes(cmdline: string) returns (x: Extras)
    requires ExtrasFromCanonical(cmdline).Ok?
    ensures Sane(x) && cmdline == Compose(x)
  {
    if cmdline == FORCED {
      x := Extras(false, None);
    } else {
      x := CanonicalizedComposes(After(FORCED, cmdline).value);
    }
  }

  lemma ComposedIsCanonical(x: Extras)
    requires Sane(x)
    ensures ExtrasFromCanonical(Compose(x)).Ok?
  {
    ComposeIs(x);
    WrittenParses(x);
    AfterIs(FORCED, Written(x));
  }

  /** A line is canonical exactly if it is the composition of some extras. */
  lemma CanonicalExact(cmdline: string)
    ensures ExtrasFromCanonical(cmdline).Ok? <==> exists x :: Sane(x) && cmdline == Compose(x)
  {
    if ExtrasFromCanonical(cmdline).Ok? {
      var x := CanonicalComposes(cmdline);
    }
    if x :| Sane(x) && cmdline == Compose(x) {
      ComposedIsCanonical(x);
    }
  }

  /** Whatever the accepted extras, the composed line is a fixed point: it is canonical, and its own extras
      compose to it again. */
  lemma FixedPoint(s: string)
    requires Canonicalize(s).Ok?
    ensures var c := Canonicalize(s).value;
            ExtrasFromCanonical(c).Ok? && Canonicalize(ExtrasFromCanonical(c).value) == Ok(c)
  {
    AddTokensSane(Extras(false, None), Split(s));
    var x := ParseExtras(s).value;
    CanonicalExact(Compose(x));
    WrittenParses(Extras(false, None));
  }
}
