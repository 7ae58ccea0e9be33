/** Calls as program statements: their construct name (`qualifier::name`), the checks made
    when one is built, structural equality with its hash, and their printed form. */
module Calls {
  import opened Wrappers

  // ---------------------------------------------------------------------------------------
  // Whitespace and names

  /** Java's `Character.isWhitespace`: the Unicode space, line and paragraph separators other
      than the non-breaking ones, and the controls tab, line feed, vertical tab, form feed,
      carriage return and the four information separators. */
  predicate IsWhitespace(c: char) {
    var n := c as int;
    || n == 0x20 || n == 0x1680 || (0x2000 <= n <= 0x2006) || (0x2008 <= n <= 0x200A)
    || n == 0x205F || n == 0x3000 || n == 0x2028 || n == 0x2029
    || (0x09 <= n <= 0x0D) || (0x1C <= n <= 0x1F)
  }

  /** A qualifier that is null, empty or made of whitespace only. */
  predicate IsBlank(qualifier: Option<string>) {
    qualifier.None? || forall i :: 0 <= i < |qualifier.value| ==> IsWhitespace(qualifier.value[i])
  }

  /** The name a call is built with: `qualifier::name`, or just `name` when the qualifier is
      blank. The name always ends the result, and a qualifier that is not blank starts it,
      followed by the separator. */
  function CompleteName(qualifier: Option<string>, name: string): (r: string)
    ensures |r| >= |name| && r[|r| - |name|..] == name
    ensures IsBlank(qualifier) ==> r == name
    ensures !IsBlank(qualifier) ==>
      |r| == |qualifier.value| + 2 + |name| && r[..|qualifier.value|] == qualifier.value &&
      r[|qualifier.value|..|qualifier.value| + 2] == "::"
  {
    if !IsBlank(qualifier) then qualifier.value + "::" + name else name
  }

  /** A qualifier that holds no ':' character. */
  predicate ColonFree(q: string) {
    forall i :: 0 <= i < |q| ==> q[i] != ':'
  }

  /** The non-blank qualifier and the name can be read back from the complete name when both
      qualifiers have the same length, and in particular when neither holds a ':' (then the
      first "::" of the complete name ends the qualifier). */
  lemma CompleteNameIsInjective(q1: string, n1: string, q2: string, n2: string)
    requires !IsBlank(Some(q1)) && !IsBlank(Some(q2))
    requires |q1| == |q2| || (ColonFree(q1) && ColonFree(q2))
    requires CompleteName(Some(q1), n1) == CompleteName(Some(q2), n2)
    ensures q1 == q2 && n1 == n2
  {
    var r := CompleteName(Some(q1), n1);
    // The shorter qualifier is followed by ':', which the longer one cannot hold there.
    var m := if |q1| <= |q2| then |q1| else |q2|;
    assert r[m] == ':';
    assert |q1| == |q2|;
    assert q1 == r[..|q1|] == q2;
    assert n1 == r[|r| - |n1|..] == n2;
  }

  /** Without that restriction the complete name does not determine the qualifier: "a" with
      "b::c" and "a::b" with "c" both give "a::b::c". */
  lemma CompleteNameIsNotInjective()
    ensures !IsBlank(Some("a")) && !IsBlank(Some("a::b"))
    ensures CompleteName(Some("a"), "b::c") == CompleteName(Some("a::b"), "c") == "a::b::c"
  {
    var q1, q2: string := "a", "a::b";
    assert !IsWhitespace(q1[0]) && !IsWhitespace(q2[0]);
    assert q1 + "::" + "b::c" == "a::b::c" == q2 + "::" + "c";
  }

  // ---------------------------------------------------------------------------------------
  // Calls

  /** The part of a call its superclass (an n-ary expression) holds and compares: the CFG and
      code location, the construct name, and the parameters (as printed). */
  datatype NaryBase = NaryBase(cfg: string, location: string, constructName: string, parameters: seq<string>)

  /** How actual parameters are assigned to formals: a strategy object. */
  datatype AssigningStrategy = AssigningStrategy(name: string)

  datatype Call = Call(
    base: NaryBase,
    assigningStrategy: AssigningStrategy,
    instanceCall: bool,
    qualifier: Option<string>,
    targetName: string)

  datatype CallError = NullTargetName | NullAssigningStrategy

  /** Builds a call. Its construct name is the complete name of qualifier and target; a null
      target name or a null strategy makes construction fail, the target name checked first. */
  function NewCall(cfg: string, location: string, strategy: Option<AssigningStrategy>, instanceCall: bool,
                   qualifier: Option<string>, targetName: Option<string>, parameters: seq<string>)
    : (r: Result<Call, CallError>)
    ensures targetName.None? ==> r == Failure(NullTargetName)
    ensures targetName.Some? && strategy.None? ==> r == Failure(NullAssigningStrategy)
    ensures r.Success? <==> targetName.Some? && strategy.Some?
    ensures r.Success? ==>
      && r.value.targetName == targetName.value && r.value.qualifier == qualifier
      && r.value.instanceCall == instanceCall && r.value.assigningStrategy == strategy.value
      && r.value.base.parameters == parameters
      && FullTargetName(r.value) == CompleteName(qualifier, targetName.value)
  {
    if targetName.None? then Failure(NullTargetName)
    else if strategy.None? then Failure(NullAssigningStrategy)
    else
      var base := NaryBase(cfg, location, CompleteName(qualifier, targetName.value), parameters);
      Success(Call(base, strategy.value, instanceCall, qualifier, targetName.value))
  }

  /** The full target name is the construct name. */
  function FullTargetName(c: Call): string {
    c.base.constructName
  }

  /** Structural equality: the superclass's parts, the instance flag, the qualifier (null
      only equal to null) and the target name. The strategy is not compared. */
  function Equals(a: Call, b: Call): (r: bool)
    ensures r <==> a.base == b.base && a.instanceCall == b.instanceCall &&
                   a.qualifier == b.qualifier && a.targetName == b.targetName
    ensures a.qualifier.None? && b.qualifier.Some? ==> !r
    ensures a == b ==> r
  {
    a.base == b.base && a.instanceCall == b.instanceCall &&
    (if a.qualifier.None? then b.qualifier.None? else b.qualifier.Some? && a.qualifier.value == b.qualifier.value) &&
    a.targetName == b.targetName
  }

  // ---------------------------------------------------------------------------------------
  // Hashing, in 32-bit two's complement arithmetic

  const TwoTo31: int := 0x8000_0000
  const TwoTo32: int := 0x1_0000_0000

  /** A Java `int`. */
  predicate IsInt32(x: int) {
    -TwoTo31 <= x < TwoTo31
  }

  /** The Java `int` an integer wraps around to. */
  function Wrap(x: int): (r: int)
    ensures IsInt32(r) && (r - x) % TwoTo32 == 0
    ensures IsInt32(x) ==> r == x
  {
    (x + TwoTo31) % TwoTo32 - TwoTo31
  }

  /** `31 * acc + x`, with wrap-around. */
  function Step(acc: int, x: int): int {
    Wrap(31 * acc + x)
  }

  /** Java's `String.hashCode`: s[0]*31^(n-1) + ... + s[n-1], with wrap-around. (Characters
      outside the basic plane, which Java counts as two code units, are taken as one.) */
  function StringHash(s: string): (r: int)
    ensures IsInt32(r)
    decreases |s|
  {
    if s == [] then 0 else Step(StringHash(s[..|s| - 1]), s[|s| - 1] as int)
  }

  /** The hash: the superclass's hash (a function of its parts, given as `baseHash`), then the
      instance flag (1231 or 1237), the qualifier's hash (0 when null) and the target name's
      hash, each folded in as `31 * result + h`. */
  function HashCode(c: Call, baseHash: NaryBase -> int): (r: int)
    ensures IsInt32(r)
  {
    var result := Wrap(baseHash(c.base));
    var result := Step(result, if c.instanceCall then 1231 else 1237);
    var result := Step(result, if c.qualifier.None? then 0 else StringHash(c.qualifier.value));
    Step(result, StringHash(c.targetName))
  }

  /** Equal calls hash equally: the hash reads only what `Equals` compares. */
  lemma EqualCallsHashEqually(a: Call, b: Call, baseHash: NaryBase -> int)
    requires Equals(a, b)
    ensures HashCode(a, baseHash) == HashCode(b, baseHash)
  {
    assert a.base == b.base && a.qualifier == b.qualifier;
  }

  // ---------------------------------------------------------------------------------------
  // Printing

  /** The strings of `parts`, separated by ", ". */
  function Join(parts: seq<string>): string {
    if parts == [] then ""
    else if |parts| == 1 then parts[0]
    else Join(parts[..|parts| - 1]) + ", " + parts[|parts| - 1]
  }

  /** The joined string is as long as its parts together with one separator between each two. */
  lemma {:induction false} JoinLength(parts: seq<string>, total: nat)
    requires parts != []
    requires total == SumOfLengths(parts)
    ensures |Join(parts)| == total + 2 * (|parts| - 1)
    decreases |parts|
  {
    if |parts| > 1 {
      var init := parts[..|parts| - 1];
      assert SumOfLengths(parts) == SumOfLengths(init) + |parts[|parts| - 1]|;
      JoinLength(init, SumOfLengths(init));
    }
  }

  /** Join read from the front: the first part, then the separator, then the rest joined. */
  lemma {:induction false} JoinUnfoldsFromTheFront(parts: seq<string>)
    requires |parts| >= 2
    ensures Join(parts) == parts[0] + ", " + Join(parts[1..])
    decreases |parts|
  {
    var n := |parts|;
    var init := parts[..n - 1];
    if n == 2 {
      assert init == [parts[0]] && parts[1..] == [parts[1]];
    } else {
      JoinUnfoldsFromTheFront(init);
      var rest := parts[1..];
      assert rest[..|rest| - 1] == init[1..];
      assert rest[|rest| - 1] == parts[n - 1];
      calc {
        Join(parts);
        Join(init) + ", " + parts[n - 1];
        (parts[0] + ", " + Join(init[1..])) + ", " + parts[n - 1];
        parts[0] + ", " + (Join(rest[..|rest| - 1]) + ", " + rest[|rest| - 1]);
        parts[0] + ", " + Join(rest);
      }
    }
  }

  function SumOfLengths(parts: seq<string>): nat {
    if parts == [] then 0 else SumOfLengths(parts[..|parts| - 1]) + |parts[|parts| - 1]|
  }

  /** The printed call: the construct name, then the parameters between parentheses,
      separated by ", ". */
  function ToString(c: Call): (r: string)
    ensures |r| >= |c.base.constructName| + 2
    ensures r[..|c.base.constructName| + 1] == c.base.constructName + "(" && r[|r| - 1] == ')'
    ensures r[|c.base.constructName| + 1..|r| - 1] == Join(c.base.parameters)
  {
    c.base.constructName + "(" + Join(c.base.parameters) + ")"
  }
}
