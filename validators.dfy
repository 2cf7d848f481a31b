/**
 * The request-validation chains the route files build with
 * `body(field).trim().isLength(...)` and friends. A chain is a list of steps
 * that run in order on one body field: a sanitiser replaces the value seen by
 * the later steps (and, at the end, the value the controller reads), a
 * validator adds one error when it fails, and every validator runs even after
 * an earlier one failed.
 */
module Validators {
  import opened Wrappers
  import opened Strings

  /** The message of a validator that was not given one. */
  const DefaultMessage: string := "Invalid value"

  datatype Sanitizer = TrimSpace | NormalizeEmail

  datatype Check =
    | IsString
    | IsLength(min: nat, max: Option<nat>)
    | IsEmail
    | NotEmpty          // `.not().isEmpty()`
    | EmailNotTaken     // the custom lookup `User.findOne({email: value})`

  datatype Step = Sanitize(sanitizer: Sanitizer) | Validate(check: Check, message: string)

  /** `body(field)` followed by its steps. */
  datatype FieldChain = Body(field: string, steps: seq<Step>)

  /** One entry of `validationResult(req)`. */
  datatype FieldError = FieldError(param: string, msg: string)

  /**
   * What the validators consult outside the request: the opaque `isEmail`
   * predicate, the opaque `normalizeEmail` function and the e-mail addresses
   * already stored for some user.
   */
  datatype Env = Env(isEmail: string -> bool, normalizeEmail: string -> string, registeredEmails: set<string>)

  /** The outcome of a chain: the final field value and the errors, in order. */
  datatype Checked = Checked(value: string, errors: seq<FieldError>)

  /** A field that is absent is read as the empty string. */
  function FieldValue(body: map<string, string>, field: string): string {
    if field in body then body[field] else ""
  }

  function Apply(s: Sanitizer, v: string, env: Env): string {
    match s
    case TrimSpace => Strings.Trim(v)
    case NormalizeEmail => env.normalizeEmail(v)
  }

  /**
   * Whether a validator accepts `v`. Lengths count Unicode code points, as
   * `isLength` does; every body value of the model is a string, so
   * `isString` always accepts.
   */
  predicate Holds(c: Check, v: string, env: Env) {
    match c
    case IsString => true
    case IsLength(min, max) => min <= |v| && (max.None? || |v| <= max.value)
    case IsEmail => env.isEmail(v)
    case NotEmpty => v != ""
    case EmailNotTaken => v !in env.registeredEmails
  }

  /** Runs the steps of one chain on the value `v` of `field`. */
  function RunSteps(steps: seq<Step>, field: string, v: string, env: Env): (r: Checked)
    ensures forall i :: 0 <= i < |r.errors| ==> r.errors[i].param == field
    ensures |r.errors| <= |steps|
  {
    if steps == [] then Checked(v, [])
    else match steps[0]
      case Sanitize(s) => RunSteps(steps[1..], field, Apply(s, v, env), env)
      case Validate(c, msg) =>
        var rest := RunSteps(steps[1..], field, v, env);
        Checked(rest.value, (if Holds(c, v, env) then [] else [FieldError(field, msg)]) + rest.errors)
  }

  /** The request body after a list of chains, and the errors they reported. */
  datatype Validated = Validated(body: map<string, string>, errors: seq<FieldError>)

  /** Runs the chains in order; each chain writes its final value back into the body. */
  function RunChains(chains: seq<FieldChain>, body: map<string, string>, env: Env): (r: Validated)
    ensures forall f :: f in body ==> f in r.body
  {
    if chains == [] then Validated(body, [])
    else
      var c := chains[0];
      var one := RunSteps(c.steps, c.field, FieldValue(body, c.field), env);
      var rest := RunChains(chains[1..], body[c.field := one.value], env);
      Validated(rest.body, one.errors + rest.errors)
  }

  /** The first chain runs on the body as sent, the others on the body it leaves. */
  lemma ConsChain(c: FieldChain, cs: seq<FieldChain>, body: map<string, string>, env: Env)
    ensures var one := RunSteps(c.steps, c.field, FieldValue(body, c.field), env);
      var rest := RunChains(cs, body[c.field := one.value], env);
      RunChains([c] + cs, body, env) == Validated(rest.body, one.errors + rest.errors)
  {
    assert ([c] + cs)[1..] == cs;
  }

  /** A single chain writes its final value into the body. */
  lemma OneChain(c: FieldChain, body: map<string, string>, env: Env)
    ensures var one := RunSteps(c.steps, c.field, FieldValue(body, c.field), env);
      RunChains([c], body, env) == Validated(body[c.field := one.value], one.errors)
  {
    assert [c][1..] == [];
    var one := RunSteps(c.steps, c.field, FieldValue(body, c.field), env);
    assert one.errors + [] == one.errors;
  }

  /** Two chains run one after the other, the second on the body the first left. */
  lemma TwoChains(c1: FieldChain, c2: FieldChain, body: map<string, string>, env: Env)
    ensures var one := RunSteps(c1.steps, c1.field, FieldValue(body, c1.field), env);
      var b1 := body[c1.field := one.value];
      var two := RunSteps(c2.steps, c2.field, FieldValue(b1, c2.field), env);
      RunChains([c1, c2], body, env) == Validated(b1[c2.field := two.value], one.errors + two.errors)
  {
    assert [c1, c2][1..] == [c2];
    var one := RunSteps(c1.steps, c1.field, FieldValue(body, c1.field), env);
    OneChain(c2, body[c1.field := one.value], env);
  }

  /** Three chains run one after the other, each on the body the previous one left. */
  lemma ThreeChains(c1: FieldChain, c2: FieldChain, c3: FieldChain, body: map<string, string>, env: Env)
    ensures var one := RunSteps(c1.steps, c1.field, FieldValue(body, c1.field), env);
      var b1 := body[c1.field := one.value];
      var two := RunSteps(c2.steps, c2.field, FieldValue(b1, c2.field), env);
      var b2 := b1[c2.field := two.value];
      var three := RunSteps(c3.steps, c3.field, FieldValue(b2, c3.field), env);
      RunChains([c1, c2, c3], body, env) == Validated(b2[c3.field := three.value], one.errors + (two.errors + three.errors))
  {
    assert [c1, c2, c3] == [c1] + [c2, c3];
    ConsChain(c1, [c2, c3], body, env);
    var one := RunSteps(c1.steps, c1.field, FieldValue(body, c1.field), env);
    TwoChains(c2, c3, body[c1.field := one.value], env);
  }

  /** `body(f).trim().<check>` leaves the trimmed value and fails exactly when the check rejects it. */
  lemma TrimThenCheck(f: string, c: Check, msg: string, v: string, env: Env)
    ensures RunSteps([Sanitize(TrimSpace), Validate(c, msg)], f, v, env)
         == Checked(Strings.Trim(v), if Holds(c, Strings.Trim(v), env) then [] else [FieldError(f, msg)])
  {
    var steps := [Sanitize(TrimSpace), Validate(c, msg)];
    assert steps[1..] == [Validate(c, msg)];
    assert steps[1..][1..] == [];
    var t := Strings.Trim(v);
    assert RunSteps([], f, t, env) == Checked(t, []);
    assert RunSteps(steps[1..], f, t, env)
        == Checked(t, if Holds(c, t, env) then [] else [FieldError(f, msg)]);
  }
}
