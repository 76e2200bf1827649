/** What makes two submissions the same request (`_fingerprint` in apps/tickets/services.py). */
module Fingerprint {
  import opened Wrappers
  import opened Records
  import opened Vocabulary
  import opened Text

  /**
   * The settings, and the two library functions the intake relies on: lower-casing and the hash.
   * A limit of None is an unlimited rate.
   */
  datatype Config = Config(
    lower: string -> string,
    hash: string -> string,
    dedupeWindow: int,
    keyWindow: int,
    limit: Option<nat>,
    period: nat)

  /** The hash is taken to be collision free. */
  ghost predicate Injective(hash: string -> string) {
    forall a, b :: hash(a) == hash(b) ==> a == b
  }

  /** Lower-casing twice is lower-casing once, and it brings in no blanks at the ends. */
  ghost predicate LowerLaws(lower: string -> string) {
    forall s :: lower(lower(s)) == lower(s) && (Tight(s, IsSpace) ==> Tight(lower(s), IsSpace))
  }

  function NormaliseEmail(cfg: Config, email: string): string { cfg.lower(Strip(email)) }

  /** Normalising on every save leaves a stored address alone. */
  lemma NormaliseIsIdempotent(cfg: Config, email: string)
    requires LowerLaws(cfg.lower)
    ensures NormaliseEmail(cfg, NormaliseEmail(cfg, email)) == NormaliseEmail(cfg, email)
  {
    TrimIsIdempotent(email, IsSpace);
    TrimIsIdempotent(NormaliseEmail(cfg, email), IsSpace);
  }

  /** An address is the same with blanks around it, and in the case in which it is compared. */
  lemma AddressesAreCompared(cfg: Config, before: string, email: string, after: string)
    requires All(before, IsSpace) && All(after, IsSpace) && email != "" && Tight(email, IsSpace)
    ensures NormaliseEmail(cfg, before + email + after) == cfg.lower(email)
  {
    TrimRemovesPadding(before, email, after, IsSpace);
  }

  /** The arguments of `create_ticket`. */
  datatype Submission = Submission(
    subject: string,
    description: string,
    reportedPriority: Priority,
    priority: Option<Priority>,
    customerName: string,
    customerEmail: string,
    actor: Option<User>,
    idempotencyKey: Option<string>,
    deduplicate: bool,
    enforceQuota: bool)

  predicate HasKey(sub: Submission) { sub.idempotencyKey.Some? && sub.idempotencyKey.value != "" }

  const SEPARATOR: char := '\U{1F}'

  function NaturalForm(email: string, subject: string, description: string): string {
    "natural" + [SEPARATOR] + (email + [SEPARATOR] + (subject + [SEPARATOR] + description))
  }

  function KeyedForm(email: string, key: string): string {
    "key:" + (email + [':'] + key)
  }

  /** The text that is hashed. */
  function Preimage(cfg: Config, sub: Submission): string {
    var email := NormaliseEmail(cfg, sub.customerEmail);
    if HasKey(sub) then KeyedForm(email, Strip(sub.idempotencyKey.value))
    else NaturalForm(email, Strip(sub.subject), Strip(sub.description))
  }

  /** The fingerprint and its window; None when the submission is not compared with others. */
  function FingerprintOf(cfg: Config, sub: Submission): Option<(string, int)> {
    if sub.deduplicate || HasKey(sub)
    then Some((cfg.hash(Preimage(cfg, sub)), if HasKey(sub) then cfg.keyWindow else cfg.dedupeWindow))
    else None
  }

  predicate IsKeyed(preimage: string) { |preimage| >= 4 && preimage[..4] == "key:" }

  lemma FormsNeverCoincide(email: string, key: string, email': string, subject: string, description: string)
    ensures IsKeyed(KeyedForm(email, key)) && !IsKeyed(NaturalForm(email', subject, description))
    ensures KeyedForm(email, key) != NaturalForm(email', subject, description)
  {
    assert NaturalForm(email', subject, description)[..4][0] == 'n';
    assert "key:"[0] == 'k';
    assert KeyedForm(email, key)[..4] == "key:";
  }

  /** The window that belongs to a fingerprint, whoever made it. */
  ghost function WindowOf(cfg: Config, fp: string): int {
    if exists p :: IsKeyed(p) && cfg.hash(p) == fp then cfg.keyWindow else cfg.dedupeWindow
  }

  lemma FingerprintFixesWindow(cfg: Config, sub: Submission)
    requires Injective(cfg.hash) && FingerprintOf(cfg, sub).Some?
    ensures FingerprintOf(cfg, sub).value.1 == WindowOf(cfg, FingerprintOf(cfg, sub).value.0)
  {
    var p := Preimage(cfg, sub);
    var email := NormaliseEmail(cfg, sub.customerEmail);
    if HasKey(sub) {
      FormsNeverCoincide(email, Strip(sub.idempotencyKey.value), email, "", "");
      assert IsKeyed(p) && cfg.hash(p) == FingerprintOf(cfg, sub).value.0;
    } else {
      FormsNeverCoincide("", "", email, Strip(sub.subject), Strip(sub.description));
      forall q | IsKeyed(q)
        ensures cfg.hash(q) != cfg.hash(p)
      {
      }
    }
  }

  // ---- which fields a preimage identifies

  /** How often a character occurs. */
  function Count(s: string, c: char): nat {
    if s == "" then 0 else (if s[0] == c then 1 else 0) + Count(s[1..], c)
  }

  lemma {:induction false} CountConcat(a: string, b: string, c: char)
    ensures Count(a + b, c) == Count(a, c) + Count(b, c)
  {
    if a == "" {
      assert a + b == b;
    } else {
      assert (a + b)[1..] == a[1..] + b;
      CountConcat(a[1..], b, c);
    }
  }

  lemma CountJoin(a: string, x: string, c: char)
    ensures Count(a + [c] + x, c) == Count(a, c) + 1 + Count(x, c)
  {
    CountConcat(a + [c], x, c);
    CountConcat(a, [c], c);
    assert Count([c], c) == 1 + Count("", c);
  }

  lemma {:induction false} CountOfAbsent(s: string, c: char)
    ensures Count(s, c) == 0 <==> c !in s
  {
    if s != "" {
      CountOfAbsent(s[1..], c);
    }
  }

  lemma CutByLength(a: string, x: string, b: string, y: string, c: char)
    requires a + [c] + x == b + [c] + y
    ensures |a| == |b| ==> a == b && x == y
  {
    var s := a + [c] + x;
    assert a == s[..|a|] && b == s[..|b|];
    assert x == s[|a| + 1..] && y == s[|b| + 1..];
  }

  /** A joined text is cut at one place only, once it is known how many separators precede the cut. */
  lemma CutByCount(a: string, x: string, b: string, y: string, c: char)
    requires a + [c] + x == b + [c] + y && Count(a, c) == Count(b, c)
    ensures a == b && x == y
  {
    if |a| < |b| {
      CutTooLate(a, x, b, y, c);
    } else if |b| < |a| {
      CutTooLate(b, y, a, x, c);
    } else {
      CutByLength(a, x, b, y, c);
    }
  }

  lemma CutTooLate(a: string, x: string, b: string, y: string, c: char)
    requires a + [c] + x == b + [c] + y && |a| < |b|
    ensures Count(a, c) < Count(b, c)
  {
    LaterCutHoldsEarlier(a, x, b, y, c);
    CountJoin(a, b[|a| + 1..], c);
  }

  lemma LaterCutHoldsEarlier(a: string, x: string, b: string, y: string, c: char)
    requires a + [c] + x == b + [c] + y && |a| < |b|
    ensures b == a + [c] + b[|a| + 1..]
  {
    var s := a + [c] + x;
    assert b == s[..|b|];
    assert s[..|a|] == a && s[|a|] == c;
  }

  lemma NaturalParts(e: string, s: string, d: string, e': string, s': string, d': string)
    requires NaturalForm(e, s, d) == NaturalForm(e', s', d')
    ensures e + [SEPARATOR] + (s + [SEPARATOR] + d) == e' + [SEPARATOR] + (s' + [SEPARATOR] + d')
  {
    assert NaturalForm(e, s, d)[8..] == e + [SEPARATOR] + (s + [SEPARATOR] + d);
    assert NaturalForm(e', s', d')[8..] == e' + [SEPARATOR] + (s' + [SEPARATOR] + d');
  }

  lemma KeyedParts(e: string, k: string, e': string, k': string)
    requires KeyedForm(e, k) == KeyedForm(e', k')
    ensures e + [':'] + k == e' + [':'] + k'
  {
    assert KeyedForm(e, k)[4..] == e + [':'] + k;
    assert KeyedForm(e', k')[4..] == e' + [':'] + k';
  }

  /** Of two equal natural preimages, the fields agree exactly when they hold equally many separators. */
  lemma NaturalAgreesIff(e: string, s: string, d: string, e': string, s': string, d': string)
    requires NaturalForm(e, s, d) == NaturalForm(e', s', d')
    ensures e == e' && s == s' && d == d' <==>
      Count(e, SEPARATOR) == Count(e', SEPARATOR) && Count(s, SEPARATOR) == Count(s', SEPARATOR)
  {
    NaturalParts(e, s, d, e', s', d');
    if Count(e, SEPARATOR) == Count(e', SEPARATOR) && Count(s, SEPARATOR) == Count(s', SEPARATOR) {
      CutByCount(e, s + [SEPARATOR] + d, e', s' + [SEPARATOR] + d', SEPARATOR);
      CutByCount(s, d, s', d', SEPARATOR);
    }
  }

  /** Of two equal keyed preimages, address and key agree exactly when the addresses hold equally many colons. */
  lemma KeyedAgreesIff(e: string, k: string, e': string, k': string)
    requires KeyedForm(e, k) == KeyedForm(e', k')
    ensures e == e' && k == k' <==> Count(e, ':') == Count(e', ':')
  {
    KeyedParts(e, k, e', k');
    if Count(e, ':') == Count(e', ':') {
      CutByCount(e, k, e', k', ':');
    }
  }

  /** The same request: the same address, with the same key or with the same words. */
  predicate SameRequest(cfg: Config, a: Submission, b: Submission) {
    && NormaliseEmail(cfg, a.customerEmail) == NormaliseEmail(cfg, b.customerEmail)
    && HasKey(a) == HasKey(b)
    && if HasKey(a) then Strip(a.idempotencyKey.value) == Strip(b.idempotencyKey.value)
       else Strip(a.subject) == Strip(b.subject) && Strip(a.description) == Strip(b.description)
  }

  /** Both submissions hold equally many of the characters that separate the hashed fields. */
  predicate SameSeparators(cfg: Config, a: Submission, b: Submission) {
    var e, e' := NormaliseEmail(cfg, a.customerEmail), NormaliseEmail(cfg, b.customerEmail);
    if HasKey(a) then Count(e, ':') == Count(e', ':')
    else
      && Count(e, SEPARATOR) == Count(e', SEPARATOR)
      && Count(Strip(a.subject), SEPARATOR) == Count(Strip(b.subject), SEPARATOR)
  }

  lemma EqualHashesEqualPreimages(cfg: Config, a: Submission, b: Submission)
    requires Injective(cfg.hash) && FingerprintOf(cfg, a).Some? && FingerprintOf(cfg, b).Some?
    requires FingerprintOf(cfg, a).value.0 == FingerprintOf(cfg, b).value.0
    ensures Preimage(cfg, a) == Preimage(cfg, b) && HasKey(a) == HasKey(b)
    ensures FingerprintOf(cfg, a) == FingerprintOf(cfg, b)
  {
    var e, e' := NormaliseEmail(cfg, a.customerEmail), NormaliseEmail(cfg, b.customerEmail);
    if HasKey(a) && !HasKey(b) {
      FormsNeverCoincide(e, Strip(a.idempotencyKey.value), e', Strip(b.subject), Strip(b.description));
    } else if !HasKey(a) && HasKey(b) {
      FormsNeverCoincide(e', Strip(b.idempotencyKey.value), e, Strip(a.subject), Strip(a.description));
    }
  }

  /**
   * What equal fingerprints mean, for any two submissions: they are the same request if and only if they hold
   * equally many separators. And the same request always has the same fingerprint.
   */
  lemma FingerprintMeansSameRequestIff(cfg: Config, a: Submission, b: Submission)
    requires Injective(cfg.hash) && FingerprintOf(cfg, a).Some? && FingerprintOf(cfg, b).Some?
    ensures SameRequest(cfg, a, b) <==>
      FingerprintOf(cfg, a).value.0 == FingerprintOf(cfg, b).value.0 && SameSeparators(cfg, a, b)
    ensures SameRequest(cfg, a, b) ==> FingerprintOf(cfg, a) == FingerprintOf(cfg, b)
  {
    var e, e' := NormaliseEmail(cfg, a.customerEmail), NormaliseEmail(cfg, b.customerEmail);
    if FingerprintOf(cfg, a).value.0 == FingerprintOf(cfg, b).value.0 {
      EqualHashesEqualPreimages(cfg, a, b);
      if HasKey(a) {
        KeyedAgreesIff(e, Strip(a.idempotencyKey.value), e', Strip(b.idempotencyKey.value));
      } else {
        NaturalAgreesIff(e, Strip(a.subject), Strip(a.description), e', Strip(b.subject), Strip(b.description));
      }
    }
  }

  /** The fields a fingerprint is made of hold none of the characters that separate them, the last field apart. */
  predicate Clean(cfg: Config, sub: Submission) {
    var email := NormaliseEmail(cfg, sub.customerEmail);
    if HasKey(sub) then ':' !in email
    else SEPARATOR !in email && SEPARATOR !in Strip(sub.subject)
  }

  /** So clean submissions with equal fingerprints are the same request, and conversely. */
  lemma FingerprintMeansSameRequest(cfg: Config, a: Submission, b: Submission)
    requires Injective(cfg.hash) && Clean(cfg, a) && Clean(cfg, b)
    requires FingerprintOf(cfg, a).Some? && FingerprintOf(cfg, b).Some?
    ensures FingerprintOf(cfg, a) == FingerprintOf(cfg, b) <==> SameRequest(cfg, a, b)
    ensures FingerprintOf(cfg, a).value.0 == FingerprintOf(cfg, b).value.0 <==> SameRequest(cfg, a, b)
  {
    FingerprintMeansSameRequestIff(cfg, a, b);
    if FingerprintOf(cfg, a).value.0 == FingerprintOf(cfg, b).value.0 {
      EqualHashesEqualPreimages(cfg, a, b);
      forall c: char, s: string | c !in s
        ensures Count(s, c) == 0
      {
        CountOfAbsent(s, c);
      }
    }
  }

  /** No separator in any hashed field, the last one included. */
  predicate Plain(cfg: Config, sub: Submission) {
    && Clean(cfg, sub)
    && if HasKey(sub) then ':' !in Strip(sub.idempotencyKey.value) else SEPARATOR !in Strip(sub.description)
  }

  lemma CountTriple(text: string, e: string, s: string, d: string)
    requires text == e + [SEPARATOR] + (s + [SEPARATOR] + d)
    ensures Count(text, SEPARATOR) == Count(e, SEPARATOR) + Count(s, SEPARATOR) + Count(d, SEPARATOR) + 2
  {
    CountJoin(e, s + [SEPARATOR] + d, SEPARATOR);
    CountJoin(s, d, SEPARATOR);
  }

  lemma PlainKeyedIsUnique(e: string, k: string, e': string, k': string)
    requires Count(e, ':') == Count(k, ':') == 0
    requires e + [':'] + k == e' + [':'] + k'
    ensures Count(e', ':') == Count(e, ':')
  {
    CountJoin(e, k, ':');
    CountJoin(e', k', ':');
  }

  /** What one caller can check alone: without separators a submission shares its fingerprint with its request only. */
  lemma PlainFingerprintIsItsOwn(cfg: Config, a: Submission, b: Submission)
    requires Injective(cfg.hash) && Plain(cfg, a)
    requires FingerprintOf(cfg, a).Some? && FingerprintOf(cfg, b).Some?
    requires FingerprintOf(cfg, a).value.0 == FingerprintOf(cfg, b).value.0
    ensures SameRequest(cfg, a, b)
  {
    var e, e' := NormaliseEmail(cfg, a.customerEmail), NormaliseEmail(cfg, b.customerEmail);
    EqualHashesEqualPreimages(cfg, a, b);
    if HasKey(a) {
      var k, k' := Strip(a.idempotencyKey.value), Strip(b.idempotencyKey.value);
      KeyedParts(e, k, e', k');
      CountOfAbsent(e, ':');
      CountOfAbsent(k, ':');
      PlainKeyedIsUnique(e, k, e', k');
    } else {
      var s, d, s', d' := Strip(a.subject), Strip(a.description), Strip(b.subject), Strip(b.description);
      NaturalParts(e, s, d, e', s', d');
      CountOfAbsent(e, SEPARATOR);
      CountOfAbsent(s, SEPARATOR);
      CountOfAbsent(d, SEPARATOR);
      var text := e + [SEPARATOR] + (s + [SEPARATOR] + d);
      CountTriple(text, e, s, d);
      CountTriple(text, e', s', d');
    }
    FingerprintMeansSameRequestIff(cfg, a, b);
  }

  /** Some characters `t[i]` and `t[j]` cut the text into a normalised address and two stripped fields. */
  predicate IsNaturalCut(cfg: Config, t: string, i: nat, j: nat)
    requires i < j < |t|
  {
    && t[i] == SEPARATOR && t[j] == SEPARATOR
    && NormaliseEmail(cfg, t[..i]) == t[..i]
    && Strip(t[i + 1..j]) == t[i + 1..j] && Strip(t[j + 1..]) == t[j + 1..]
  }

  /** Some character `t[i]` cuts the text into a normalised address and a stripped key. */
  predicate IsKeyedCut(cfg: Config, t: string, i: nat)
    requires i < |t|
  {
    t[i] == ':' && NormaliseEmail(cfg, t[..i]) == t[..i] && Strip(t[i + 1..]) == t[i + 1..]
  }

  predicate AnotherNaturalCut(cfg: Config, t: string, at: nat, at': nat) {
    exists i, j | 0 <= i < j < |t| :: IsNaturalCut(cfg, t, i, j) && (i != at || j != at')
  }

  predicate AnotherKeyedCut(cfg: Config, t: string, at: nat) {
    exists i | 0 <= i < |t| :: IsKeyedCut(cfg, t, i) && i != at
  }

  /** The hashed texts, without the word they start with. */
  function NaturalText(cfg: Config, sub: Submission): string {
    NormaliseEmail(cfg, sub.customerEmail) + [SEPARATOR] + (Strip(sub.subject) + [SEPARATOR] + Strip(sub.description))
  }

  function KeyedText(cfg: Config, sub: Submission): string
    requires HasKey(sub)
  {
    NormaliseEmail(cfg, sub.customerEmail) + [':'] + Strip(sub.idempotencyKey.value)
  }

  /** The hashed text can be cut at other places than where it was joined. */
  predicate AnotherCut(cfg: Config, sub: Submission) {
    var at := |NormaliseEmail(cfg, sub.customerEmail)|;
    if HasKey(sub) then AnotherKeyedCut(cfg, KeyedText(cfg, sub), at)
    else AnotherNaturalCut(cfg, NaturalText(cfg, sub), at, at + 1 + |Strip(sub.subject)|)
  }

  lemma NaturalCutAt(cfg: Config, t: string, e: string, s: string, d: string)
    requires t == e + [SEPARATOR] + (s + [SEPARATOR] + d)
    requires NormaliseEmail(cfg, e) == e && Strip(s) == s && Strip(d) == d
    ensures |e| + 1 + |s| < |t| && IsNaturalCut(cfg, t, |e|, |e| + 1 + |s|)
  {
    assert t[..|e|] == e && t[|e| + 1..|e| + 1 + |s|] == s && t[|e| + 1 + |s| + 1..] == d;
  }

  lemma KeyedCutAt(cfg: Config, t: string, e: string, k: string)
    requires t == e + [':'] + k && NormaliseEmail(cfg, e) == e && Strip(k) == k
    ensures IsKeyedCut(cfg, t, |e|)
  {
    assert t[..|e|] == e && t[|e| + 1..] == k;
  }

  lemma HashedFieldsAreStripped(cfg: Config, sub: Submission)
    requires LowerLaws(cfg.lower)
    ensures var e := NormaliseEmail(cfg, sub.customerEmail); NormaliseEmail(cfg, e) == e
    ensures Strip(Strip(sub.subject)) == Strip(sub.subject) && Strip(Strip(sub.description)) == Strip(sub.description)
    ensures HasKey(sub) ==> Strip(Strip(sub.idempotencyKey.value)) == Strip(sub.idempotencyKey.value)
  {
    NormaliseIsIdempotent(cfg, sub.customerEmail);
    TrimIsIdempotent(sub.subject, IsSpace);
    TrimIsIdempotent(sub.description, IsSpace);
    if HasKey(sub) { TrimIsIdempotent(sub.idempotencyKey.value, IsSpace); }
  }

  /** A different request with the same fingerprint cuts the same text elsewhere. */
  lemma CollisionIsAnotherCut(cfg: Config, sub: Submission, other: Submission)
    requires Injective(cfg.hash) && LowerLaws(cfg.lower) && FingerprintOf(cfg, sub).Some?
    requires FingerprintOf(cfg, other) == FingerprintOf(cfg, sub) && !SameRequest(cfg, other, sub)
    ensures AnotherCut(cfg, sub)
  {
    var e, e' := NormaliseEmail(cfg, sub.customerEmail), NormaliseEmail(cfg, other.customerEmail);
    EqualHashesEqualPreimages(cfg, sub, other);
    HashedFieldsAreStripped(cfg, other);
    if HasKey(sub) {
      var k, k' := Strip(sub.idempotencyKey.value), Strip(other.idempotencyKey.value);
      KeyedParts(e, k, e', k');
      KeyedElsewhere(cfg, e, k, e', k');
    } else {
      var s, d, s', d' := Strip(sub.subject), Strip(sub.description), Strip(other.subject), Strip(other.description);
      NaturalParts(e, s, d, e', s', d');
      NaturalElsewhere(cfg, e, s, d, e', s', d');
    }
  }

  lemma KeyedElsewhere(cfg: Config, e: string, k: string, e': string, k': string)
    requires e + [':'] + k == e' + [':'] + k' && (e, k) != (e', k')
    requires NormaliseEmail(cfg, e') == e' && Strip(k') == k'
    ensures AnotherKeyedCut(cfg, e + [':'] + k, |e|)
  {
    var t := e + [':'] + k;
    KeyedCutAt(cfg, t, e', k');
    CutByLength(e, k, e', k', ':');
  }

  lemma NaturalElsewhere(cfg: Config, e: string, s: string, d: string, e': string, s': string, d': string)
    requires e + [SEPARATOR] + (s + [SEPARATOR] + d) == e' + [SEPARATOR] + (s' + [SEPARATOR] + d')
    requires (e, s, d) != (e', s', d')
    requires NormaliseEmail(cfg, e') == e' && Strip(s') == s' && Strip(d') == d'
    ensures AnotherNaturalCut(cfg, e + [SEPARATOR] + (s + [SEPARATOR] + d), |e|, |e| + 1 + |s|)
  {
    var t := e + [SEPARATOR] + (s + [SEPARATOR] + d);
    NaturalCutAt(cfg, t, e', s', d');
    CutByLength(e, s + [SEPARATOR] + d, e', s' + [SEPARATOR] + d', SEPARATOR);
    if |e| == |e'| {
      CutByLength(s, d, s', d', SEPARATOR);
    }
  }

  lemma PickNaturalCut(cfg: Config, t: string, at: nat, at': nat) returns (i: nat, j: nat)
    requires AnotherNaturalCut(cfg, t, at, at')
    ensures i < j < |t| && IsNaturalCut(cfg, t, i, j) && (i != at || j != at')
  {
    i, j :| 0 <= i < j < |t| && IsNaturalCut(cfg, t, i, j) && (i != at || j != at');
  }

  lemma PickKeyedCut(cfg: Config, t: string, at: nat) returns (i: nat)
    requires AnotherKeyedCut(cfg, t, at)
    ensures i < |t| && IsKeyedCut(cfg, t, i) && i != at
  {
    i :| 0 <= i < |t| && IsKeyedCut(cfg, t, i) && i != at;
  }

  lemma NaturalCutJoins(t: string, i: nat, j: nat)
    requires i < j < |t| && t[i] == SEPARATOR && t[j] == SEPARATOR
    ensures t == t[..i] + [SEPARATOR] + (t[i + 1..j] + [SEPARATOR] + t[j + 1..])
  {
  }

  lemma NaturalCutCollides(cfg: Config, sub: Submission, e: string, s: string, d: string) returns (other: Submission)
    requires FingerprintOf(cfg, sub).Some? && !HasKey(sub)
    requires NormaliseEmail(cfg, e) == e && Strip(s) == s && Strip(d) == d
    requires NaturalText(cfg, sub) == e + [SEPARATOR] + (s + [SEPARATOR] + d)
    requires |e| != |NormaliseEmail(cfg, sub.customerEmail)| || |s| != |Strip(sub.subject)|
    ensures FingerprintOf(cfg, other) == FingerprintOf(cfg, sub) && !SameRequest(cfg, other, sub)
  {
    other := sub.(customerEmail := e, subject := s, description := d);
    assert NaturalText(cfg, other) == NaturalText(cfg, sub);
  }

  lemma KeyedCutJoins(t: string, i: nat)
    requires i < |t| && t[i] == ':'
    ensures t == t[..i] + [':'] + t[i + 1..]
  {
  }

  lemma KeyedCutCollides(cfg: Config, sub: Submission, e: string, k: string) returns (other: Submission)
    requires FingerprintOf(cfg, sub).Some? && HasKey(sub) && NormaliseEmail(cfg, e) == e && Strip(k) == k
    requires KeyedText(cfg, sub) == e + [':'] + k && |e| != |NormaliseEmail(cfg, sub.customerEmail)|
    ensures FingerprintOf(cfg, other) == FingerprintOf(cfg, sub) && !SameRequest(cfg, other, sub)
  {
    var key := if k == "" then " " else k;
    BlankStripsToNothing();
    other := sub.(customerEmail := e, idempotencyKey := Some(key));
    assert KeyedText(cfg, other) == KeyedText(cfg, sub);
  }

  lemma BlankStripsToNothing()
    ensures Strip(" ") == ""
  {
    assert TrimLeft(" ", IsSpace) == TrimLeft("", IsSpace);
  }

  /** Another cut is a different request with the same fingerprint. */
  lemma AnotherCutCollides(cfg: Config, sub: Submission) returns (other: Submission)
    requires FingerprintOf(cfg, sub).Some? && AnotherCut(cfg, sub)
    ensures FingerprintOf(cfg, other) == FingerprintOf(cfg, sub) && !SameRequest(cfg, other, sub)
  {
    var at := |NormaliseEmail(cfg, sub.customerEmail)|;
    if HasKey(sub) {
      var t := KeyedText(cfg, sub);
      var i := PickKeyedCut(cfg, t, at);
      KeyedCutJoins(t, i);
      other := KeyedCutCollides(cfg, sub, t[..i], t[i + 1..]);
    } else {
      var t := NaturalText(cfg, sub);
      var i, j := PickNaturalCut(cfg, t, at, at + 1 + |Strip(sub.subject)|);
      NaturalCutJoins(t, i, j);
      other := NaturalCutCollides(cfg, sub, t[..i], t[i + 1..j], t[j + 1..]);
    }
  }

  /**
   * Exactly when a submission's fingerprint stands for its own request alone, whatever else is ever submitted:
   * when its hashed text cannot be cut elsewhere into a normalised address and stripped fields.
   */
  lemma FingerprintIsItsOwnIff(cfg: Config, sub: Submission)
    requires Injective(cfg.hash) && LowerLaws(cfg.lower) && FingerprintOf(cfg, sub).Some?
    ensures (forall other | FingerprintOf(cfg, other) == FingerprintOf(cfg, sub) :: SameRequest(cfg, other, sub))
            <==> !AnotherCut(cfg, sub)
  {
    if AnotherCut(cfg, sub) {
      var other := AnotherCutCollides(cfg, sub);
    } else {
      forall other | FingerprintOf(cfg, other) == FingerprintOf(cfg, sub)
        ensures SameRequest(cfg, other, sub)
      {
        if !SameRequest(cfg, other, sub) {
          CollisionIsAnotherCut(cfg, sub, other);
        }
      }
    }
  }

  // ---- addresses without separators

  /** The address holds none of the characters that separate it from what is hashed after it. */
  predicate CleanAddress(cfg: Config, sub: Submission) {
    (if HasKey(sub) then ':' else SEPARATOR) !in NormaliseEmail(cfg, sub.customerEmail)
  }

  /** Subject and description, joined, can be cut into two stripped texts elsewhere. */
  predicate AnotherSubjectCut(t: string, at: nat) {
    exists j | 0 <= j < |t| :: IsSubjectCut(t, j) && j != at
  }

  predicate IsSubjectCut(t: string, j: nat)
    requires j < |t|
  {
    t[j] == SEPARATOR && Strip(t[..j]) == t[..j] && Strip(t[j + 1..]) == t[j + 1..]
  }

  function Words(sub: Submission): string { Strip(sub.subject) + [SEPARATOR] + Strip(sub.description) }

  /** Between clean addresses equal fingerprints mean equal addresses, and then the rest of the texts is equal. */
  lemma CleanAddressesAgree(cfg: Config, a: Submission, b: Submission)
    requires Injective(cfg.hash) && FingerprintOf(cfg, a).Some? && FingerprintOf(cfg, b) == FingerprintOf(cfg, a)
    requires CleanAddress(cfg, a) && CleanAddress(cfg, b)
    ensures HasKey(a) == HasKey(b) && NormaliseEmail(cfg, a.customerEmail) == NormaliseEmail(cfg, b.customerEmail)
    ensures if HasKey(a) then SameRequest(cfg, a, b) else Words(a) == Words(b)
  {
    var e, e' := NormaliseEmail(cfg, a.customerEmail), NormaliseEmail(cfg, b.customerEmail);
    EqualHashesEqualPreimages(cfg, a, b);
    var c := if HasKey(a) then ':' else SEPARATOR;
    CountOfAbsent(e, c);
    CountOfAbsent(e', c);
    if HasKey(a) {
      var k, k' := Strip(a.idempotencyKey.value), Strip(b.idempotencyKey.value);
      KeyedParts(e, k, e', k');
      CutByCount(e, k, e', k', ':');
    } else {
      NaturalParts(e, Strip(a.subject), Strip(a.description), e', Strip(b.subject), Strip(b.description));
      CutByCount(e, Words(a), e', Words(b), SEPARATOR);
    }
  }

  lemma OtherWordsCutElsewhere(t: string, s: string, d: string, s': string, d': string)
    requires t == s + [SEPARATOR] + d == s' + [SEPARATOR] + d' && (s, d) != (s', d')
    requires Strip(s') == s' && Strip(d') == d'
    ensures AnotherSubjectCut(t, |s|)
  {
    CutByLength(s, d, s', d', SEPARATOR);
    assert t[..|s'|] == s' && t[|s'| + 1..] == d';
    assert IsSubjectCut(t, |s'|);
  }

  lemma PickSubjectCut(t: string, at: nat) returns (s: string, d: string)
    requires AnotherSubjectCut(t, at)
    ensures t == s + [SEPARATOR] + d && Strip(s) == s && Strip(d) == d && |s| != at
  {
    var j :| 0 <= j < |t| && IsSubjectCut(t, j) && j != at;
    s, d := t[..j], t[j + 1..];
  }

  lemma SubjectCutCollides(cfg: Config, sub: Submission) returns (other: Submission)
    requires FingerprintOf(cfg, sub).Some? && !HasKey(sub) && AnotherSubjectCut(Words(sub), |Strip(sub.subject)|)
    ensures CleanAddress(cfg, sub) ==> CleanAddress(cfg, other)
    ensures FingerprintOf(cfg, other) == FingerprintOf(cfg, sub) && !SameRequest(cfg, other, sub)
  {
    var s, d := PickSubjectCut(Words(sub), |Strip(sub.subject)|);
    other := sub.(subject := s, description := d);
    assert Words(other) == Words(sub);
  }

  /**
   * Among submissions whose addresses hold no separator, as mail addresses without quoting never do, a key always
   * stands for its own request, and words do exactly when they cannot be cut elsewhere into subject and description.
   */
  lemma FingerprintIsItsOwnAmongCleanAddressesIff(cfg: Config, sub: Submission)
    requires Injective(cfg.hash) && FingerprintOf(cfg, sub).Some? && CleanAddress(cfg, sub)
    ensures (forall other | CleanAddress(cfg, other) && FingerprintOf(cfg, other) == FingerprintOf(cfg, sub) ::
               SameRequest(cfg, other, sub))
            <==> HasKey(sub) || !AnotherSubjectCut(Words(sub), |Strip(sub.subject)|)
  {
    if !HasKey(sub) && AnotherSubjectCut(Words(sub), |Strip(sub.subject)|) {
      var other := SubjectCutCollides(cfg, sub);
    } else {
      forall other | CleanAddress(cfg, other) && FingerprintOf(cfg, other) == FingerprintOf(cfg, sub)
        ensures SameRequest(cfg, other, sub)
      {
        CleanAddressesAgree(cfg, sub, other);
        if !SameRequest(cfg, other, sub) {
          TrimIsIdempotent(other.subject, IsSpace);
          TrimIsIdempotent(other.description, IsSpace);
          OtherWordsCutElsewhere(
            Words(sub), Strip(sub.subject), Strip(sub.description), Strip(other.subject), Strip(other.description));
        }
      }
    }
  }

  /** One address goes on where the other one stops, with a colon. */
  predicate Continues(a: string, b: string) { a + [':'] <= b }

  lemma LongerAddressContinues(e: string, k: string, e': string, k': string)
    requires e + [':'] + k == e' + [':'] + k' && |e| < |e'|
    ensures Continues(e, e')
  {
    LaterCutHoldsEarlier(e, k, e', k', ':');
  }

  /** Keyed submissions with one fingerprint are the same request unless one address continues the other at a colon. */
  lemma KeyedFingerprintMeansSameRequestIff(cfg: Config, a: Submission, b: Submission)
    requires Injective(cfg.hash) && HasKey(a) && HasKey(b)
    requires FingerprintOf(cfg, a).value.0 == FingerprintOf(cfg, b).value.0
    ensures var e, e' := NormaliseEmail(cfg, a.customerEmail), NormaliseEmail(cfg, b.customerEmail);
      SameRequest(cfg, a, b) <==> !Continues(e, e') && !Continues(e', e)
  {
    var e, e' := NormaliseEmail(cfg, a.customerEmail), NormaliseEmail(cfg, b.customerEmail);
    var k, k' := Strip(a.idempotencyKey.value), Strip(b.idempotencyKey.value);
    EqualHashesEqualPreimages(cfg, a, b);
    KeyedParts(e, k, e', k');
    if |e| < |e'| {
      LongerAddressContinues(e, k, e', k');
    } else if |e'| < |e| {
      LongerAddressContinues(e', k', e, k);
    } else {
      CutByLength(e, k, e', k', ':');
    }
  }

  // ---- requests that do collide

  /** Words cut at different places: two requests that differ in subject and description, with one fingerprint. */
  lemma NaturalFormsCanCollide(cfg: Config, sub: Submission, x: string, y: string, z: string)
    requires sub.deduplicate && !HasKey(sub)
    requires Strip(x + [SEPARATOR] + y) == x + [SEPARATOR] + y && Strip(x) == x
    requires Strip(y + [SEPARATOR] + z) == y + [SEPARATOR] + z && Strip(z) == z
    ensures var a := sub.(subject := x + [SEPARATOR] + y, description := z);
      var b := sub.(subject := x, description := y + [SEPARATOR] + z);
      FingerprintOf(cfg, a).Some? && FingerprintOf(cfg, a) == FingerprintOf(cfg, b) && !SameRequest(cfg, a, b)
  {
    assert x + [SEPARATOR] + y + [SEPARATOR] + z == x + [SEPARATOR] + (y + [SEPARATOR] + z);
    assert |x + [SEPARATOR] + y| != |x|;
  }

  lemma StripOfWords(s: string)
    requires s != "" && !IsSpace(s[0]) && !IsSpace(s[|s| - 1])
    ensures Strip(s) == s
  {
    TrimIsIdempotent(s, IsSpace);
  }

  /** For instance these, from any address. */
  lemma TwoRequestsCollide(cfg: Config, sub: Submission)
    requires sub.deduplicate && !HasKey(sub)
    ensures var a := sub.(subject := "Printer" + [SEPARATOR] + "floor 2", description := "does not print");
      var b := sub.(subject := "Printer", description := "floor 2" + [SEPARATOR] + "does not print");
      FingerprintOf(cfg, a).Some? && FingerprintOf(cfg, a) == FingerprintOf(cfg, b) && !SameRequest(cfg, a, b)
  {
    StripOfWords("Printer");
    StripOfWords("does not print");
    StripOfWords("Printer" + [SEPARATOR] + "floor 2");
    StripOfWords("floor 2" + [SEPARATOR] + "does not print");
    NaturalFormsCanCollide(cfg, sub, "Printer", "floor 2", "does not print");
  }

  /** The same with a key: two addresses, the one cut off at a colon of the other. */
  lemma KeyedFormsCanCollide(cfg: Config, sub: Submission, x: string, y: string, z: string)
    requires x + [':'] + y == NormaliseEmail(cfg, x + [':'] + y) && x == NormaliseEmail(cfg, x)
    requires y != "" && z != "" && Strip(z) == z && Strip(y + [':'] + z) == y + [':'] + z
    ensures var a := sub.(customerEmail := x + [':'] + y, idempotencyKey := Some(z));
      var b := sub.(customerEmail := x, idempotencyKey := Some(y + [':'] + z));
      FingerprintOf(cfg, a).Some? && FingerprintOf(cfg, a) == FingerprintOf(cfg, b) && !SameRequest(cfg, a, b)
  {
    assert x + [':'] + y + [':'] + z == x + [':'] + (y + [':'] + z);
    assert |x + [':'] + y| != |x|;
  }
}
