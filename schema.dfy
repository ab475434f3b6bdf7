/** The pieces of zod's behaviour the validators rely on: a schema checks
    its fields in declaration order and collects every issue, and a caller
    reports the first one. Messages a schema does not set are zod's
    defaults. */
module Schema {
  import opened Common

  /** `z.string().min(lo, minMessage).max(hi, maxMessage)`: both checks run
      on the value as given (a string, or an array before its elements). */
  function LengthIssues<T>(s: seq<T>, lo: nat, minMessage: string, hi: nat, maxMessage: string): (r: seq<string>)
    ensures r == [] <==> lo <= |s| <= hi
    ensures |s| < lo ==> r != [] && r[0] == minMessage
    ensures lo <= |s| && hi < |s| ==> r == [maxMessage]
  {
    (if |s| < lo then [minMessage] else []) + (if |s| > hi then [maxMessage] else [])
  }

  /** zod's default message for `.max(n)` on a string. */
  function TooLongDefault(n: nat): string {
    "String must contain at most " + NatToString(n) + " character(s)"
  }

  /** zod's default message for a value outside `z.enum(options)`. */
  function InvalidEnumDefault(options: seq<string>, received: string): string {
    "Invalid enum value. Expected " + Join(Quoted(options), " | ") + ", received '" + received + "'"
  }

  function Quoted(options: seq<string>): (r: seq<string>)
    ensures |r| == |options|
  {
    if options == [] then [] else ["'" + options[0] + "'"] + Quoted(options[1..])
  }

  /** `z.enum(options)` */
  function EnumIssues(options: seq<string>, v: string): (r: seq<string>)
    ensures r == [] <==> v in options
  {
    if v in options then [] else [InvalidEnumDefault(options, v)]
  }

  /** The issues of every element of an array, in element order. */
  function ElementIssues(xs: seq<string>, check: string -> seq<string>): (r: seq<string>)
    ensures r == [] <==> forall k :: 0 <= k < |xs| ==> check(xs[k]) == []
  {
    if xs == [] then []
    else
      var rest := ElementIssues(xs[1..], check);
      assert forall k :: 1 <= k < |xs| ==> xs[k] == xs[1..][k - 1];
      check(xs[0]) + rest
  }
}
