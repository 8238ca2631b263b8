/**
 * The PHP and WordPress library behaviour that the plugin's hooks rely on:
 * reading an array slot, merging arguments with defaults, and a part of
 * `sprintf` with positional arguments.
 */
module Platform {
  import opened Wrappers

  /** `$array[$key]` used as a string: a missing key reads as null, and null formats and concatenates as "". */
  function Read(m: map<string, string>, key: string): string
  {
    if key in m then m[key] else ""
  }

  /**
   * `wp_parse_args($args, $defaults)` on two string-keyed arrays: `array_merge($defaults, $args)`,
   * so every key of either array is present and the value given in `$args` wins.
   */
  function ParseArgs(args: map<string, string>, defaults: map<string, string>): (r: map<string, string>)
    ensures r.Keys == args.Keys + defaults.Keys
    ensures forall k :: k in args ==> r[k] == args[k]
    ensures forall k :: k in defaults && k !in args ==> r[k] == defaults[k]
  {
    defaults + args
  }

  /** The position in a `%N$s` conversion: arguments are numbered from 1, and one digit is all this model reads. */
  type ArgNum = n: int | 1 <= n <= 9 witness 1

  /** The conversion `%N$s`: the N-th argument, as a string. */
  function Directive(n: ArgNum): (d: string)
    ensures |d| == 4 && d[0] == '%' && '1' <= d[1] <= '9' && d[2] == '$' && d[3] == 's'
    ensures d[1] as int - '0' as int == n
  {
    ['%', ('0' as int + n) as char, '$', 's']
  }

  /** Prepends `p` to a formatted string, and keeps a failure a failure. */
  function Prefix(p: string, o: Option<string>): Option<string>
  {
    match o
    case Some(s) => Some(p + s)
    case None => None
  }

  /**
   * `sprintf($format, ...$args)` for formats built from literal characters, `%%` and `%N$s`
   * with a single-digit N. None covers two different cases: the errors PHP raises instead of
   * returning a string (a reference to an argument that was not passed, among others), and
   * the valid conversions this model does not interpret (`%s`, `%d`, `%5s`, `%10$s`, ...),
   * for which PHP does return text.
   */
  function Sprintf(format: string, args: seq<string>): Option<string>
    decreases |format|
  {
    if format == [] then Some("")
    else if format[0] != '%' then Prefix([format[0]], Sprintf(format[1..], args))
    else if |format| >= 2 && format[1] == '%' then Prefix("%", Sprintf(format[2..], args))
    else if |format| >= 4 && '1' <= format[1] <= '9' && format[2] == '$' && format[3] == 's' then
      var n := format[1] as int - '0' as int;
      if n <= |args| then Prefix(args[n - 1], Sprintf(format[4..], args)) else None
    else None
  }

  /** Literal text of a format string: it holds no `%`, so `sprintf` copies it as it is. */
  type PlainText = s: string | '%' !in s witness ""

  /** A format string described piece by piece: literal text, or a positional argument. */
  datatype Piece = Text(text: PlainText) | Arg(n: ArgNum)

  /** The format string a template describes. */
  function Render(t: seq<Piece>): string
  {
    if t == [] then ""
    else
      (match t[0]
       case Text(s) => s
       case Arg(n) => Directive(n)) + Render(t[1..])
  }

  /** Every `%N$s` of the template refers to one of `argc` arguments. */
  predicate ArgsPassed(t: seq<Piece>, argc: nat)
  {
    forall i :: 0 <= i < |t| && t[i].Arg? ==> t[i].n <= argc
  }

  /** What filling a template means: every text copied, every `%N$s` replaced by the N-th argument, in order. */
  function Fill(t: seq<Piece>, args: seq<string>): string
    requires ArgsPassed(t, |args|)
  {
    if t == [] then ""
    else
      (match t[0]
       case Text(s) => s
       case Arg(n) => args[n - 1]) + Fill(t[1..], args)
  }

  /** Templates compose: filling a concatenation fills each part. */
  lemma {:induction false} FillAppend(a: seq<Piece>, b: seq<Piece>, args: seq<string>)
    requires ArgsPassed(a, |args|) && ArgsPassed(b, |args|)
    ensures ArgsPassed(a + b, |args|)
    ensures Fill(a + b, args) == Fill(a, args) + Fill(b, args)
  {
    assert ArgsPassed(a + b, |args|) by {
      forall i | 0 <= i < |a + b| && (a + b)[i].Arg? ensures (a + b)[i].n <= |args| {
        if i < |a| { assert (a + b)[i] == a[i]; } else { assert (a + b)[i] == b[i - |a|]; }
      }
    }
    if a == [] {
      assert a + b == b;
    } else {
      assert ArgsPassed(a[1..], |args|) by {
        forall i | 0 <= i < |a[1..]| && a[1..][i].Arg? ensures a[1..][i].n <= |args| {
          assert a[1..][i] == a[i + 1];
        }
      }
      FillAppend(a[1..], b, args);
      assert (a + b)[0] == a[0];
      assert (a + b)[1..] == a[1..] + b;
    }
  }

  /** Text without `%` is copied to the output unchanged, ahead of whatever the rest of the format yields. */
  lemma {:induction false} SprintfText(s: string, rest: string, args: seq<string>)
    requires '%' !in s
    ensures Sprintf(s + rest, args) == Prefix(s, Sprintf(rest, args))
  {
    if s != [] {
      var f := s + rest;
      assert f[0] == s[0] && s[0] != '%';
      assert f[1..] == s[1..] + rest;
      assert Sprintf(f, args) == Prefix([s[0]], Sprintf(s[1..] + rest, args));
      SprintfText(s[1..], rest, args);
      match Sprintf(rest, args)
      case None =>
      case Some(x) =>
        assert [s[0]] + (s[1..] + x) == s + x;
    } else {
      assert s + rest == rest;
      match Sprintf(rest, args)
      case None =>
      case Some(x) =>
        assert s + x == x;
    }
  }

  /** `%N$s` is replaced by the N-th argument when it was passed. */
  lemma SprintfArg(n: ArgNum, rest: string, args: seq<string>)
    requires n <= |args|
    ensures Sprintf(Directive(n) + rest, args) == Prefix(args[n - 1], Sprintf(rest, args))
  {
  }

  /** `sprintf` on a rendered template yields the filled template: the positional contract of the templates. */
  lemma {:induction false} SprintfFillsTemplate(t: seq<Piece>, args: seq<string>)
    requires ArgsPassed(t, |args|)
    ensures Sprintf(Render(t), args) == Some(Fill(t, args))
  {
    if t != [] {
      assert ArgsPassed(t[1..], |args|) by {
        forall i | 0 <= i < |t[1..]| && t[1..][i].Arg? ensures t[1..][i].n <= |args| {
          assert t[1..][i] == t[i + 1];
        }
      }
      SprintfFillsTemplate(t[1..], args);
      match t[0]
      case Text(s) =>
        SprintfText(s, Render(t[1..]), args);
      case Arg(n) =>
        SprintfArg(n, Render(t[1..]), args);
    }
  }
}
