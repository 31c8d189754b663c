/**
 What the challenge id is computed over (`generate_conformance_challenge_id`). Base64 is a
 parameter; the keyed digest itself is not part of this model.
 */
module ChallengeId {
  import opened Wrappers
  import opened Text
  import opened CanonicalJson
  import opened StableJson

  const MINIMUM_SECRET_KEY_BYTES := 32

  datatype Params = Params(
    secretBytes: nat, realm: string, scheme: string, intent: string, request: Json,
    expires: Option<string>, digest: Option<string>, header: Option<string>, extra: Option<string>)

  function OrEmpty(o: Option<string>): string {
    if o.Some? then o.value else ""
  }

  /** The header that enters the id: none for the default header, whatever its case. */
  function CustomHeader(p: Params): Option<string> {
    if p.header.Some? && Lower(p.header.value) != "authorization" then p.header else None
  }

  function PreimageFields(p: Params, encode: string -> string): seq<string> {
    [p.realm, p.scheme, p.intent, encode(StableText(p.request)), OrEmpty(p.expires), OrEmpty(p.digest)]
    + (if CustomHeader(p).Some? then [CustomHeader(p).value] else [])
    + [OrEmpty(p.extra)]
  }

  function JoinPipes(fields: seq<string>): string {
    if fields == [] then "" else if |fields| == 1 then fields[0] else fields[0] + ("|" + JoinPipes(fields[1..]))
  }

  function Preimage(p: Params, encode: string -> string): Result<string> {
    if p.secretBytes < MINIMUM_SECRET_KEY_BYTES then Failure("secretKey must be at least 32 bytes")
    else Success(JoinPipes(PreimageFields(p, encode)))
  }

  // ---------------------------------------------------------------- what the id binds

  /** An injective encoding into an alphabet without the separator, as base64url is. */
  ghost predicate IsEncoding(encode: string -> string) {
    (forall x, y :: encode(x) == encode(y) ==> x == y) && (forall x :: '|' !in encode(x))
  }

  ghost predicate PipeFree(fields: seq<string>) {
    forall i :: 0 <= i < |fields| ==> '|' !in fields[i]
  }

  lemma UpToPipe(a: string, b: string, s: string, t: string)
    requires '|' !in a && '|' !in b && a + ("|" + s) == b + ("|" + t)
    ensures a == b && s == t
  {
    var x, y := a + ("|" + s), b + ("|" + t);
    assert x[|a|] == '|' && y[|b|] == '|';
    assert forall i :: 0 <= i < |a| ==> x[i] == a[i];
    assert forall i :: 0 <= i < |b| ==> y[i] == b[i];
    SamePrefix(a, b, "|" + s, "|" + t);
    SameRest("|", s, t);
  }

  lemma {:induction false} JoinUnique(fs: seq<string>, gs: seq<string>)
    requires fs != [] && gs != [] && PipeFree(fs) && PipeFree(gs) && JoinPipes(fs) == JoinPipes(gs)
    ensures fs == gs
  {
    if |fs| > 1 && |gs| > 1 {
      UpToPipe(fs[0], gs[0], JoinPipes(fs[1..]), JoinPipes(gs[1..]));
      JoinUnique(fs[1..], gs[1..]);
      assert fs == [fs[0]] + fs[1..] && gs == [gs[0]] + gs[1..];
    } else {
      HasPipe(fs);
      HasPipe(gs);
    }
  }

  lemma HasPipe(fs: seq<string>)
    requires fs != [] && PipeFree(fs)
    ensures '|' in JoinPipes(fs) <==> |fs| > 1
  {
    if |fs| > 1 {
      assert JoinPipes(fs)[|fs[0]|] == '|';
    }
  }

  /** Everything the id depends on: the request only up to the order of its object entries. */
  ghost predicate SameBinding(p: Params, q: Params) {
    && p.realm == q.realm && p.scheme == q.scheme && p.intent == q.intent
    && Meaning(p.request) == Meaning(q.request)
    && OrEmpty(p.expires) == OrEmpty(q.expires) && OrEmpty(p.digest) == OrEmpty(q.digest)
    && CustomHeader(p) == CustomHeader(q) && OrEmpty(p.extra) == OrEmpty(q.extra)
  }

  lemma SameFields(p: Params, q: Params, encode: string -> string)
    requires IsEncoding(encode) && Valid(p.request) && Valid(q.request)
    requires PreimageFields(p, encode) == PreimageFields(q, encode)
    ensures SameBinding(p, q)
  {
    var fs, gs := PreimageFields(p, encode), PreimageFields(q, encode);
    assert fs[0] == gs[0] && fs[1] == gs[1] && fs[2] == gs[2] && fs[3] == gs[3] && fs[4] == gs[4] && fs[5] == gs[5];
    assert fs[|fs| - 1] == gs[|gs| - 1];
    assert |fs| == 8 ==> fs[6] == gs[6];
    StableTextExact(p.request, q.request);
  }

  /** For fields without the separator, two challenges have one preimage exactly when they bind the same things. */
  lemma PreimageExact(p: Params, q: Params, encode: string -> string)
    requires IsEncoding(encode) && Valid(p.request) && Valid(q.request)
    requires PipeFree(PreimageFields(p, encode)) && PipeFree(PreimageFields(q, encode))
    requires Preimage(p, encode).Success? && Preimage(q, encode).Success?
    ensures Preimage(p, encode) == Preimage(q, encode) <==> SameBinding(p, q)
  {
    StableTextExact(p.request, q.request);
    var fs, gs := PreimageFields(p, encode), PreimageFields(q, encode);
    if JoinPipes(fs) == JoinPipes(gs) {
      JoinUnique(fs, gs);
      SameFields(p, q, encode);
    }
  }
}
