/** The class-name macros of the message logger: three chained `erase`
    calls that turn a `__PRETTY_FUNCTION__` string such as
    "double genie::Foo::Bar(int) const" into "genie::Foo". The logger
    itself is not part of this model. */
module Messenger {
  import opened Wrappers
  import opened StdString

  /** `a` occurs in `s` as a contiguous run. */
  ghost predicate IsSubstring(a: string, s: string)
  {
    exists i, j :: 0 <= i <= j <= |s| && a == s[i..j]
  }

  /** The only ':' of `t` is its first character: the position the second
      macro subtracts one from is 0, and the subtraction wraps to `npos`. */
  predicate ColonOnlyAtStart(t: string)
  {
    |t| > 0 && t[0] == ':' && ':' !in t[1..]
  }

  /** `__P2__`: erase from the first '(' on, dropping the argument list and
      everything after it. Without a '(' the start is `npos` and `erase`
      throws. */
  function StripArguments(pretty: string): (r: Result<string, StringError>)
    requires Representable(pretty)
    ensures r.Success? <==> '(' in pretty
    ensures r.Success? ==>
              && |r.value| < |pretty|
              && r.value == pretty[..|r.value|]
              && pretty[|r.value|] == '('
              && '(' !in r.value
  {
    Erase(pretty, FindFirstOf(pretty, '('), |pretty|)
  }

  /** `__P3__`: erase from one before the last ':' on, dropping the final
      "::name". With no ':' at all the start is 0 and the result is empty. */
  function StripMemberName(t: string): (r: Result<string, StringError>)
    requires Representable(t)
    ensures ':' !in t ==> r == Success("")
    ensures r.Failure? <==> ColonOnlyAtStart(t)
    ensures r.Success? && ':' in t ==>
              && |r.value| + 1 < |t|
              && r.value == t[..|r.value|]
              && t[|r.value| + 1] == ':'
              && ':' !in t[|r.value| + 2..]
  {
    var k := FindLastOf(t, ':');
    Erase(t, if k != Npos then SizeSub(k, 1) else 0, |t|)
  }

  /** `__P4__`: erase up to and including the last ' ', dropping the return
      type. With no ' ' the count is `npos + 1`, which wraps to 0, and
      nothing is erased. */
  function StripReturnType(u: string): (r: Result<string, StringError>)
    requires Representable(u)
    ensures r.Success?
    ensures |r.value| <= |u| && r.value == u[|u| - |r.value|..]
    ensures ' ' !in r.value
    ensures |r.value| < |u| ==> u[|u| - |r.value| - 1] == ' '
    ensures ' ' !in u ==> r.value == u
  {
    var j := FindLastOf(u, ' ');
    assert j == Npos ==> SizeAdd(j, 1) == 0;
    assert j != Npos ==> SizeAdd(j, 1) == j + 1 && u[|u| - (|u| - j - 1) - 1] == ' ';
    Erase(u, 0, SizeAdd(j, 1))
  }

  /** `__GCLASS`: the three steps in sequence; a throw in any step
      propagates. */
  function ClassName(pretty: string): (r: Result<string, StringError>)
    requires Representable(pretty)
    ensures r.Failure? <==> ('(' !in pretty || ColonOnlyAtStart(pretty[..FindFirstOf(pretty, '(')]))
    ensures r.Success? ==> ' ' !in r.value && '(' !in r.value
    ensures r.Success? ==> IsSubstring(r.value, pretty)
  {
    match StripArguments(pretty)
    case Failure(e) => Failure(e)
    case Success(a) =>
      ArgumentsEndAtFirstParen(pretty);
      match StripMemberName(a)
      case Failure(e) => Failure(e)
      case Success(b) =>
        var c := StripReturnType(b).value;
        StepsCutOneRun(pretty, a, b, c);
        Success(c)
  }

  /** The prefix the first step keeps ends exactly at the first '('. */
  lemma ArgumentsEndAtFirstParen(pretty: string)
    requires Representable(pretty)
    requires StripArguments(pretty).Success?
    ensures StripArguments(pretty).value == pretty[..FindFirstOf(pretty, '(')]
  {
  }

  /** The second step keeps a prefix of the first step's prefix and the
      third a suffix of that: together they cut one run out of `pretty`,
      free of ' ' and '('. */
  lemma StepsCutOneRun(pretty: string, a: string, b: string, c: string)
    requires Representable(pretty)
    requires StripArguments(pretty) == Success(a)
    requires StripMemberName(a) == Success(b)
    requires StripReturnType(b) == Success(c)
    ensures c == pretty[|b| - |c|..|b|]
    ensures ' ' !in c && '(' !in c
    ensures IsSubstring(c, pretty)
  {
    PrefixOfPrefix(pretty, a, b);
    assert c == pretty[|b| - |c|..|b|];
  }

  /** A prefix of a prefix is a prefix. */
  lemma PrefixOfPrefix(s: string, a: string, b: string)
    requires |a| <= |s| && a == s[..|a|]
    requires |b| <= |a| && b == a[..|b|]
    ensures b == s[..|b|]
    ensures '(' !in a ==> '(' !in b
  {
  }

  // ---------------------------------------------------------------------
  // Properties

  /** Each step, from the position of the character it searches for to
      what it keeps. */
  lemma StripArgumentsAt(pretty: string, k: nat)
    requires Representable(pretty)
    requires k < |pretty| && pretty[k] == '(' && '(' !in pretty[..k]
    ensures StripArguments(pretty) == Success(pretty[..k])
  {
  }

  lemma StripMemberNameAt(t: string, k: nat)
    requires Representable(t)
    requires 1 <= k < |t| && t[k] == ':' && ':' !in t[k + 1..]
    ensures StripMemberName(t) == Success(t[..k - 1])
  {
  }

  lemma StripReturnTypeAt(u: string, k: nat)
    requires Representable(u)
    requires k < |u| && u[k] == ' ' && ' ' !in u[k + 1..]
    ensures StripReturnType(u) == Success(u[k + 1..])
  {
  }

  /** A function outside any class or namespace (no ':' before its
      argument list) yields the empty class name. */
  lemma FreeFunctionHasEmptyClassName(pretty: string)
    requires Representable(pretty)
    requires '(' in pretty
    requires ':' !in pretty[..FindFirstOf(pretty, '(')]
    ensures ClassName(pretty) == Success("")
  {
  }

  /** Without a '(' the first step throws `out_of_range`. */
  lemma NoArgumentListThrows(pretty: string)
    requires Representable(pretty)
    requires '(' !in pretty
    ensures ClassName(pretty) == Failure(OutOfRange)
  {
  }

  /** `__GCLASS` is the composition of the three steps. */
  lemma ClassNameComposesSteps(pretty: string, a: string, b: string, c: string)
    requires Representable(pretty)
    requires StripArguments(pretty) == Success(a)
    requires StripMemberName(a) == Success(b)
    requires StripReturnType(b) == Success(c)
    ensures ClassName(pretty) == Success(c)
  {
  }

  /** The worked example: a const member function with a return type.
      (The string is a parameter fixed by the precondition, which keeps the
      verifier from unfolding the recursive searches on a literal.) */
  lemma MemberFunctionExample(pretty: string)
    requires pretty == "double genie::Foo::Bar(int) const"
    ensures ClassName(pretty) == Success("genie::Foo")
  {
    var a := ExampleArguments(pretty);
    var b := ExampleMemberName(a);
    var c := ExampleReturnType(b);
    ClassNameComposesSteps(pretty, a, b, c);
  }

  lemma ExampleArguments(pretty: string) returns (a: string)
    requires pretty == "double genie::Foo::Bar(int) const"
    ensures a == "double genie::Foo::Bar"
    ensures StripArguments(pretty) == Success(a)
  {
    StripArgumentsAt(pretty, 22);
    a := pretty[..22];
    assert a == "double genie::Foo::Bar";
  }

  lemma ExampleMemberName(a: string) returns (b: string)
    requires a == "double genie::Foo::Bar"
    ensures b == "double genie::Foo"
    ensures StripMemberName(a) == Success(b)
  {
    StripMemberNameAt(a, 18);
    b := a[..17];
  }

  lemma ExampleReturnType(b: string) returns (c: string)
    requires b == "double genie::Foo"
    ensures c == "genie::Foo"
    ensures StripReturnType(b) == Success(c)
  {
    StripReturnTypeAt(b, 6);
    c := b[7..];
  }
}
