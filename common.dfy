/** Vocabulary shared by every route of the backend: optional request fields and
    JavaScript truthiness, the responses a handler sends, checks that run in a fixed
    order, the abstract password hash and credential signer, and decimal ids. */
module Common {

  datatype Option<+T> = None | Some(value: T)

  /** Record ids. The store issues them from a counter; the database's own id format
      is not modelled. */
  type Id = nat

  /** A stored record as a route returns it: the record together with its id. */
  datatype Doc<+T> = Doc(id: Id, doc: T)

  /** What a handler does with the response: send a JSON body with a status, send an
      error status with a `msg`, or (on the branches that never answer) send nothing. */
  datatype Response<+T> =
    | Reply(status: nat, body: T)
    | Error(status: nat, msg: string)
    | NoReply

  /** An error response before it is sent. */
  datatype Rejection = Rejection(status: nat, msg: string)

  function Reject<T>(rej: Rejection): (r: Response<T>)
    ensures r.Error? && r.status == rej.status && r.msg == rej.msg
  {
    Error(rej.status, rej.msg)
  }

  /** The validation error several handlers share. */
  const MissingFields := Rejection(400, "Please enter all fields!")

  /** Every map key is below the store's id counter `n`. */
  ghost predicate Bounded<T>(m: map<Id, T>, n: nat)
  {
    forall k :: k in m ==> k < n
  }

  // ---------------------------------------------------------------------------
  // Request fields and JavaScript truthiness
  // ---------------------------------------------------------------------------

  /** `!!field` for a string field of a request body: absent and "" are falsy. */
  predicate Truthy(s: Option<string>)
  {
    s.Some? && s.value != ""
  }

  /** `!!field` for a numeric field: absent and 0 are falsy (NaN is not modelled). */
  predicate TruthyNum(x: Option<real>)
  {
    x.Some? && x.value != 0.0
  }

  /** Whether a character lies outside the Basic Multilingual Plane, so that
      UTF-16 stores it as a surrogate pair. */
  predicate Astral(ch: char)
  {
    ch as int > 0xFFFF
  }

  /** JavaScript's `.length` of a string: the number of UTF-16 code units, one per
      character of the Basic Multilingual Plane and two per character above it. */
  function Utf16Len(s: string): (n: nat)
    ensures |s| <= n <= 2 * |s|
    ensures n == |s| <==> forall i :: 0 <= i < |s| ==> !Astral(s[i])
    ensures n == 2 * |s| <==> forall i :: 0 <= i < |s| ==> Astral(s[i])
  {
    if |s| == 0 then 0
    else
      var rest := Utf16Len(s[1..]);
      assert forall i :: 1 <= i < |s| ==> s[1..][i - 1] == s[i];
      (if Astral(s[0]) then 2 else 1) + rest
  }

  /** Code units add up over concatenation. */
  lemma {:induction false} Utf16LenConcat(a: string, b: string)
    ensures Utf16Len(a + b) == Utf16Len(a) + Utf16Len(b)
  {
    if |a| > 0 {
      assert (a + b)[0] == a[0] && (a + b)[1..] == a[1..] + b;
      Utf16LenConcat(a[1..], b);
    } else {
      assert a + b == b;
    }
  }

  /** Three U+1F600 characters are six code units long. */
  lemma ThreeEmojiAreSix()
    ensures Utf16Len("\U{1F600}\U{1F600}\U{1F600}") == 6
  {
    var e := "\U{1F600}";
    assert Utf16Len(e) == 2;
    Utf16LenConcat(e, e);
    Utf16LenConcat(e + e, e);
  }

  /** `.length` of a field that the route has already checked to be present. */
  function Len(s: Option<string>): (n: nat)
    ensures s.Some? ==> n == Utf16Len(s.value)
  {
    if s.Some? then Utf16Len(s.value) else 0
  }

  /** After `<field> = given || <field>`, the field holds `given` when it is truthy
      and its old value otherwise. */
  ghost predicate MergePatched(given: Option<string>, before: string, after: string)
  {
    (Truthy(given) ==> after == given.value) && (!Truthy(given) ==> after == before)
  }

  /** `given || current`: the merge-patch step of the update routes. */
  function Patch(given: Option<string>, current: string): (r: string)
    ensures MergePatched(given, current, r)
  {
    if Truthy(given) then given.value else current
  }

  /** `given || current` for a numeric field. */
  function PatchNum(given: Option<real>, current: real): (r: real)
    ensures TruthyNum(given) ==> r == given.value
    ensures !TruthyNum(given) ==> r == current
  {
    if TruthyNum(given) then given.value else current
  }

  /** `given || current` for a stored field that may itself be absent. */
  function PatchOpt(given: Option<string>, current: Option<string>): (r: Option<string>)
    ensures Truthy(given) ==> r == given
    ensures !Truthy(given) ==> r == current
  {
    if Truthy(given) then given else current
  }

  /** A template literal `${field}`: an absent field renders as "undefined". */
  function Template(s: Option<string>): (r: string)
    ensures s.Some? ==> r == s.value
    ensures s.None? ==> r == "undefined"
  {
    if s.Some? then s.value else "undefined"
  }

  /** `.limit(k)` on a query result: its first k elements, or all of them when fewer. */
  function Limit<T>(s: seq<T>, k: nat): (r: seq<T>)
    ensures |r| == if |s| < k then |s| else k
    ensures r == s[..|r|]
  {
    if |s| <= k then s else s[..k]
  }

  // ---------------------------------------------------------------------------
  // Checks that run in a fixed order
  // ---------------------------------------------------------------------------

  /** One validation step of a handler: whether it passes, and the error sent if not. */
  datatype Check = Check(passes: bool, onFail: Rejection)

  /** The position of the first check that fails, or |checks| when all pass. */
  function FirstFailing(checks: seq<Check>): (i: nat)
    ensures i <= |checks|
    ensures forall j :: 0 <= j < i ==> checks[j].passes
    ensures i < |checks| ==> !checks[i].passes
  {
    if |checks| == 0 || !checks[0].passes then 0 else 1 + FirstFailing(checks[1..])
  }

  /** The error a handler sends when its checks run in the given order: that of the
      first failing check; none when every check passes. */
  function FirstFailure(checks: seq<Check>): (r: Option<Rejection>)
    ensures r.None? <==> forall j :: 0 <= j < |checks| ==> checks[j].passes
    ensures r.Some? ==> exists i :: 0 <= i < |checks| && !checks[i].passes && checks[i].onFail == r.value
                                   && forall j :: 0 <= j < i ==> checks[j].passes
  {
    var i := FirstFailing(checks);
    if i < |checks| then Some(checks[i].onFail) else None
  }

  /** When check `i` fails and every earlier one passes, it is the first failing one. */
  lemma {:induction false} FirstFailingAt(checks: seq<Check>, i: nat)
    requires i < |checks| && !checks[i].passes
    requires forall j :: 0 <= j < i ==> checks[j].passes
    ensures FirstFailing(checks) == i
  {
    if i > 0 {
      assert checks[0].passes;
      FirstFailingAt(checks[1..], i - 1);
    }
  }

  /** When check `i` fails and every earlier one passes, its error is the one sent. */
  lemma FirstFailureAt(checks: seq<Check>, i: nat)
    requires i < |checks| && !checks[i].passes
    requires forall j :: 0 <= j < i ==> checks[j].passes
    ensures FirstFailure(checks) == Some(checks[i].onFail)
  {
    FirstFailingAt(checks, i);
  }

  // ---------------------------------------------------------------------------
  // Password hashing and credential signing, as parameters
  // ---------------------------------------------------------------------------

  /** The salted one-way hash and the credential signer, both supplied from outside.
      Nothing is assumed of either function. */
  datatype Crypto = Crypto(hash: string -> string, sign: (Id, int) -> string)

  /** Comparing a plaintext with a stored hash. */
  predicate Verify(c: Crypto, plain: string, digest: string)
  {
    c.hash(plain) == digest
  }

  /** A password always verifies against its own hash. */
  lemma VerifyOwnHash(c: Crypto, plain: string)
    ensures Verify(c, plain, c.hash(plain))
  {
  }

  // ---------------------------------------------------------------------------
  // Decimal rendering of ids
  // ---------------------------------------------------------------------------

  predicate IsDigit(ch: char)
  {
    '0' <= ch <= '9'
  }

  predicate AllDigits(s: string)
  {
    forall i :: 0 <= i < |s| ==> IsDigit(s[i])
  }

  function DigitChar(d: nat): (ch: char)
    requires d < 10
    ensures IsDigit(ch) && ch as int - '0' as int == d
  {
    (d + '0' as int) as char
  }

  /** The decimal text of an id, as it appears in a URL. */
  function DecimalText(n: nat): (s: string)
    ensures |s| > 0 && AllDigits(s)
  {
    if n < 10 then [DigitChar(n)] else DecimalText(n / 10) + [DigitChar(n % 10)]
  }

  /** The number a string of digits denotes. */
  function DecimalValue(s: string): nat
    requires AllDigits(s)
  {
    if |s| == 0 then 0 else 10 * DecimalValue(s[..|s| - 1]) + (s[|s| - 1] as int - '0' as int)
  }

  lemma {:induction false} DecimalRoundTrip(n: nat)
    ensures DecimalValue(DecimalText(n)) == n
  {
    var s := DecimalText(n);
    if n >= 10 {
      DecimalRoundTrip(n / 10);
      assert s[..|s| - 1] == DecimalText(n / 10);
    }
  }
}
