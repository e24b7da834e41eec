/** Input validators: the `isValid*` predicates and the `validate*`
    middlewares that collect every violated rule before a handler runs. */
module Validation {
  import opened JsValues
  import opened Text
  import opened Enums

  // =====================================================================
  // isValidEmail:  ^[^\s@]+@[^\s@]+\.[^\s@]+$

  predicate EmailChar(c: char) { !IsWhitespace(c) && c != '@' }
  predicate AllEmailChars(s: string) { forall i :: 0 <= i < |s| ==> EmailChar(s[i]) }

  /** `[^\s@]+\.[^\s@]+`: no white space or '@', and a dot with text on both sides. */
  predicate DottedDomain(d: string) {
    AllEmailChars(d) && exists k :: 1 <= k < |d| - 1 && d[k] == '.'
  }

  predicate IsValidEmail(e: string) {
    exists a :: 0 < a < |e| && e[a] == '@' && AllEmailChars(e[..a]) && DottedDomain(e[a + 1..])
  }

  /** The email pattern read as rules: no white space anywhere, exactly one
      '@', a non-empty local part, and a domain with a '.' that has text on
      both sides. */
  lemma EmailRules(e: string)
    ensures IsValidEmail(e) <==>
      && (forall i :: 0 <= i < |e| ==> !IsWhitespace(e[i]))
      && exists a :: && 0 < a < |e| && e[a] == '@'
                     && (forall i :: 0 <= i < |e| && i != a ==> e[i] != '@')
                     && (exists k :: a + 1 < k < |e| - 1 && e[k] == '.')
  {
    if IsValidEmail(e) {
      var a :| 0 < a < |e| && e[a] == '@' && AllEmailChars(e[..a]) && DottedDomain(e[a + 1..]);
      var d := e[a + 1..];
      var k :| 1 <= k < |d| - 1 && d[k] == '.';
      assert e[a + 1 + k] == '.';
      forall i | 0 <= i < |e| ensures !IsWhitespace(e[i]) {
        if i < a { assert e[i] == e[..a][i]; } else if i > a { assert e[i] == d[i - a - 1]; }
      }
      forall i | 0 <= i < |e| && i != a ensures e[i] != '@' {
        if i < a { assert e[i] == e[..a][i]; } else { assert e[i] == d[i - a - 1]; }
      }
    }
  }

  // =====================================================================
  // isValidPhone:  ^(\+62|62|0)[0-9]{9,13}$

  predicate SubscriberDigits(s: string) { 9 <= |s| <= 13 && AllDigits(s) }

  predicate IsValidPhone(p: string) {
    || (|p| >= 3 && p[..3] == "+62" && SubscriberDigits(p[3..]))
    || (|p| >= 2 && p[..2] == "62" && SubscriberDigits(p[2..]))
    || (|p| >= 1 && p[..1] == "0" && SubscriberDigits(p[1..]))
  }

  /** A valid phone number is 10 to 16 characters, all digits apart from an
      optional leading '+'; each of the three prefixes accepts 9 to 13 digits. */
  lemma PhoneShape(p: string, d: string)
    ensures IsValidPhone(p) ==> 10 <= |p| <= 16 && AllDigits(p[if p[0] == '+' then 1 else 0..])
    ensures SubscriberDigits(d) ==> IsValidPhone("+62" + d) && IsValidPhone("62" + d) && IsValidPhone("0" + d)
  {
    if IsValidPhone(p) {
      if |p| >= 3 && p[..3] == "+62" && SubscriberDigits(p[3..]) {
        assert p[0] == '+';
        forall i | 1 <= i < |p| ensures IsDigit(p[i]) {
          if i < 3 { assert p[i] == p[..3][i]; } else { assert p[i] == p[3..][i - 3]; }
        }
      } else if |p| >= 2 && p[..2] == "62" && SubscriberDigits(p[2..]) {
        assert p[0] == p[..2][0];
        forall i | 0 <= i < |p| ensures IsDigit(p[i]) {
          if i < 2 { assert p[i] == p[..2][i]; } else { assert p[i] == p[2..][i - 2]; }
        }
      } else {
        assert p[0] == p[..1][0];
        forall i | 0 <= i < |p| ensures IsDigit(p[i]) {
          if i < 1 { assert p[i] == p[..1][i]; } else { assert p[i] == p[1..][i - 1]; }
        }
      }
    }
    if SubscriberDigits(d) {
      assert ("+62" + d)[..3] == "+62" && ("+62" + d)[3..] == d;
      assert ("62" + d)[..2] == "62" && ("62" + d)[2..] == d;
      assert ("0" + d)[..1] == "0" && ("0" + d)[1..] == d;
    }
  }

  // =====================================================================
  // isValidPlateNumber:  ^[A-Z]{1,2}\s?\d{1,4}\s?[A-Z]{1,3}$  on toUpperCase()

  /** Length of the run of upper-case letters at the start of s. */
  function LeadUpper(s: string): (n: nat)
    ensures n <= |s| && AllUpper(s[..n]) && (n == |s| || !IsUpper(s[n]))
  {
    if s != [] && IsUpper(s[0]) then 1 + LeadUpper(s[1..]) else 0
  }

  /** Length of the run of digits at the start of s. */
  function LeadDigits(s: string): (n: nat)
    ensures n <= |s| && AllDigits(s[..n]) && (n == |s| || !IsDigit(s[n]))
  {
    if s != [] && IsDigit(s[0]) then 1 + LeadDigits(s[1..]) else 0
  }

  /** `\s?`: drops one leading white-space character if there is one. */
  function SkipSpace(s: string): (r: string)
    ensures r == s || (s != [] && IsWhitespace(s[0]) && r == s[1..])
  {
    if s != [] && IsWhitespace(s[0]) then s[1..] else s
  }

  /** The pattern matched left to right: the letter, digit and space
      classes are disjoint, so each run is taken whole. */
  predicate PlateScan(u: string) {
    var n1 := LeadUpper(u);
    && 1 <= n1 <= 2
    && var r := SkipSpace(u[n1..]);
       var n2 := LeadDigits(r);
       && 1 <= n2 <= 4
       && var t := SkipSpace(r[n2..]);
          1 <= |t| <= 3 && AllUpper(t)
  }

  predicate IsValidPlateNumber(p: string) {
    PlateScan(ToUpper(p))
  }

  predicate OptionalSpace(w: string) { |w| <= 1 && AllWhitespace(w) }

  /** The pattern as a decomposition of the upper-cased text. */
  ghost predicate PlatePattern(u: string) {
    exists a, w1, d, w2, c ::
      && u == a + w1 + d + w2 + c
      && 1 <= |a| <= 2 && AllUpper(a) && OptionalSpace(w1)
      && 1 <= |d| <= 4 && AllDigits(d) && OptionalSpace(w2)
      && 1 <= |c| <= 3 && AllUpper(c)
  }

  lemma {:induction false} LeadUpperOf(x: string, y: string)
    requires AllUpper(x) && (y == [] || !IsUpper(y[0]))
    ensures LeadUpper(x + y) == |x|
    decreases |x|
  {
    if x != [] {
      assert (x + y)[1..] == x[1..] + y;
      LeadUpperOf(x[1..], y);
    } else {
      assert x + y == y;
    }
  }

  lemma {:induction false} LeadDigitsOf(x: string, y: string)
    requires AllDigits(x) && (y == [] || !IsDigit(y[0]))
    ensures LeadDigits(x + y) == |x|
    decreases |x|
  {
    if x != [] {
      assert (x + y)[1..] == x[1..] + y;
      LeadDigitsOf(x[1..], y);
    } else {
      assert x + y == y;
    }
  }

  lemma SkipSpaceOf(w: string, y: string)
    requires OptionalSpace(w) && (y == [] || !IsWhitespace(y[0]))
    ensures SkipSpace(w + y) == y
  {
    if w == [] { assert w + y == y; } else { assert (w + y)[1..] == y; }
  }

  lemma SkipSpaceSplit(s: string) returns (w: string)
    ensures OptionalSpace(w) && s == w + SkipSpace(s)
  {
    if s != [] && IsWhitespace(s[0]) {
      w := [s[0]];
      assert s == w + s[1..];
    } else {
      w := [];
    }
  }

  lemma HeadSplit(u: string) returns (a: string, w: string, r: string)
    ensures u == a + (w + r) && a == u[..LeadUpper(u)] && OptionalSpace(w)
    ensures r == SkipSpace(u[LeadUpper(u)..])
  {
    var n := LeadUpper(u);
    a := u[..n];
    assert u == a + u[n..];
    w := SkipSpaceSplit(u[n..]);
    r := SkipSpace(u[n..]);
  }

  lemma DigitSplit(r: string) returns (d: string, w: string, t: string)
    ensures r == d + (w + t) && d == r[..LeadDigits(r)] && OptionalSpace(w)
    ensures t == SkipSpace(r[LeadDigits(r)..])
  {
    var n := LeadDigits(r);
    d := r[..n];
    assert r == d + r[n..];
    w := SkipSpaceSplit(r[n..]);
    t := SkipSpace(r[n..]);
  }

  lemma ScanImpliesPattern(u: string)
    requires PlateScan(u)
    ensures PlatePattern(u)
  {
    var a, w1, r := HeadSplit(u);
    var d, w2, t := DigitSplit(r);
    Assoc5(a, w1, d, w2, t);
    PatternOf(u, a, w1, d, w2, t);
  }

  lemma Assoc5(a: string, b: string, c: string, d: string, e: string)
    ensures a + (b + (c + (d + e))) == a + b + c + d + e
  {
  }

  lemma PatternOf(u: string, a: string, w1: string, d: string, w2: string, c: string)
    requires u == a + w1 + d + w2 + c
    requires 1 <= |a| <= 2 && AllUpper(a) && OptionalSpace(w1)
    requires 1 <= |d| <= 4 && AllDigits(d) && OptionalSpace(w2)
    requires 1 <= |c| <= 3 && AllUpper(c)
    ensures PlatePattern(u)
  {
  }

  lemma LetterRun(a: string, w: string, rest: string)
    requires AllUpper(a) && OptionalSpace(w) && rest != [] && IsDigit(rest[0])
    ensures LeadUpper(a + w + rest) == |a|
    ensures SkipSpace((a + w + rest)[|a|..]) == rest
  {
    assert (w + rest)[0] == if w == [] then rest[0] else w[0];
    assert a + w + rest == a + (w + rest);
    LeadUpperOf(a, w + rest);
    SkipSpaceOf(w, rest);
  }

  lemma DigitRun(d: string, w: string, rest: string)
    requires AllDigits(d) && OptionalSpace(w) && rest != [] && IsUpper(rest[0])
    ensures LeadDigits(d + w + rest) == |d|
    ensures SkipSpace((d + w + rest)[|d|..]) == rest
  {
    assert (w + rest)[0] == if w == [] then rest[0] else w[0];
    assert d + w + rest == d + (w + rest);
    LeadDigitsOf(d, w + rest);
    SkipSpaceOf(w, rest);
  }

  lemma PatternImpliesScan(u: string, a: string, w1: string, d: string, w2: string, c: string)
    requires u == a + w1 + d + w2 + c
    requires 1 <= |a| <= 2 && AllUpper(a) && OptionalSpace(w1)
    requires 1 <= |d| <= 4 && AllDigits(d) && OptionalSpace(w2)
    requires 1 <= |c| <= 3 && AllUpper(c)
    ensures PlateScan(u)
  {
    var tail := d + w2 + c;
    assert u == a + w1 + tail;
    assert tail[0] == d[0];
    LetterRun(a, w1, tail);
    DigitRun(d, w2, c);
  }

  /** The left-to-right scan accepts exactly the texts the pattern matches. */
  lemma PlateScanMatchesPattern(u: string)
    ensures PlateScan(u) <==> PlatePattern(u)
  {
    if PlateScan(u) {
      ScanImpliesPattern(u);
    }
    if PlatePattern(u) {
      var a, w1, d, w2, c :| && u == a + w1 + d + w2 + c
        && 1 <= |a| <= 2 && AllUpper(a) && OptionalSpace(w1)
        && 1 <= |d| <= 4 && AllDigits(d) && OptionalSpace(w2)
        && 1 <= |c| <= 3 && AllUpper(c);
      PatternImpliesScan(u, a, w1, d, w2, c);
    }
  }

  /** Validity does not depend on letter case. */
  lemma PlateCaseInsensitive(p: string)
    ensures IsValidPlateNumber(ToUpper(p)) <==> IsValidPlateNumber(p)
  {
    ToUpperIdempotent(p);
  }

  // =====================================================================
  // isValidRating and the enumerations

  predicate IsValidRating(r: int) { 1 <= r <= 5 }

  predicate IsValidBookingStatus(s: string) { s == "pending" || s == "processing" || s == "done" || s == "cancelled" }
  predicate IsValidTransactionStatus(s: string) { s == "pending" || s == "paid" || s == "failed" || s == "refunded" }
  predicate IsValidPaymentMethod(s: string) { s == "ewallet" || s == "transfer" || s == "cash" }
  predicate IsValidVehicleType(s: string) { s == "car" || s == "motorcycle" }

  /** Each enumeration predicate accepts exactly the names its parser maps
      to a schema value, so a handler that passed the check can store it. */
  lemma EnumerationsMatchSchema(s: string)
    ensures IsValidBookingStatus(s) <==> ParseBookingStatus(s).Some?
    ensures IsValidTransactionStatus(s) <==> ParseTxStatus(s).Some?
    ensures IsValidPaymentMethod(s) <==> ParsePayMethod(s).Some?
    ensures IsValidVehicleType(s) <==> (s == "car" || s == "motorcycle")
  {
  }

  // =====================================================================
  // isValidTimeSlot:  ^([0-1]?[0-9]|2[0-3]):[0-5][0-9]-([0-1]?[0-9]|2[0-3]):[0-5][0-9]$

  /** `[0-1]?[0-9]|2[0-3]` */
  predicate HourText(h: string) {
    || (|h| == 1 && IsDigit(h[0]))
    || (|h| == 2 && '0' <= h[0] <= '1' && IsDigit(h[1]))
    || (|h| == 2 && h[0] == '2' && '0' <= h[1] <= '3')
  }

  /** `[0-5][0-9]` */
  predicate MinuteText(m: string) {
    |m| == 2 && '0' <= m[0] <= '5' && IsDigit(m[1])
  }

  /** One clock time `H[H]:MM`. */
  predicate TimeText(t: string) {
    exists i :: 0 <= i < |t| && t[i] == ':' && HourText(t[..i]) && MinuteText(t[i + 1..])
  }

  predicate IsValidTimeSlot(s: string) {
    exists i :: 0 <= i < |s| && s[i] == '-' && TimeText(s[..i]) && TimeText(s[i + 1..])
  }

  /** The hour text reads as 0..23 and every hour 0..23 is accepted, both
      with and without a leading zero. */
  lemma HourTextRange(h: string, n: nat)
    ensures HourText(h) ==> AllDigits(h) && ParseDigits(h) <= 23
    ensures n <= 23 ==> HourText(Pad2(n)) && ParseDigits(Pad2(n)) == n
    ensures n <= 23 ==> HourText(NatToString(n)) && ParseDigits(NatToString(n)) == n
  {
    if HourText(h) {
      if |h| == 2 { assert h[..1] == [h[0]]; }
    }
    if n <= 23 {
      NatToStringRoundTrip(n);
      var p := Pad2(n);
      assert ParseDigits(p) == n;
      assert p[..1] == [p[0]];
      assert ParseDigits(p) == 10 * DigitValue(p[0]) + DigitValue(p[1]);
      if n >= 10 {
        var d := NatToString(n);
        assert d[..1] == [d[0]];
      }
    }
  }

  /** The minute text reads as 0..59 and every minute 0..59 is accepted. */
  lemma MinuteTextRange(m: string, n: nat)
    ensures MinuteText(m) ==> AllDigits(m) && ParseDigits(m) <= 59
    ensures n <= 59 ==> MinuteText(Pad2(n)) && ParseDigits(Pad2(n)) == n
  {
    if MinuteText(m) {
      assert ParseDigits(m[..1]) == DigitValue(m[0]) by { assert m[..1][..0] == []; }
      assert ParseDigits(m) == 10 * DigitValue(m[0]) + DigitValue(m[1]);
      assert m[0] as int <= '5' as int;
    }
    if n <= 59 {
      var p := Pad2(n);
      assert p[..1] == [p[0]];
      assert ParseDigits(p) == 10 * DigitValue(p[0]) + DigitValue(p[1]);
      assert DigitValue(p[0]) <= 5;
      assert p[0] as int <= '5' as int;
    }
  }

  lemma TimeTextOf(h: string, m: string)
    requires HourText(h) && MinuteText(m)
    ensures TimeText(h + ":" + m)
  {
    var t := h + ":" + m;
    assert t[|h|] == ':' && t[..|h|] == h && t[|h| + 1..] == m;
  }

  lemma SlotOf(t1: string, t2: string)
    requires TimeText(t1) && TimeText(t2)
    ensures IsValidTimeSlot(t1 + "-" + t2)
  {
    var s := t1 + "-" + t2;
    assert s[|t1|] == '-' && s[..|t1|] == t1 && s[|t1| + 1..] == t2;
  }

  /** The pattern puts no order on the two times: a slot that ends before
      it starts is accepted. */
  lemma TimeSlotUnordered()
    ensures IsValidTimeSlot("17:00-08:00")
  {
    TimeTextOf("17", "00");
    TimeTextOf("08", "00");
    assert "17" + ":" + "00" == "17:00";
    assert "08" + ":" + "00" == "08:00";
    assert "17:00-08:00" == "17:00" + "-" + "08:00";
    SlotOf("17:00", "08:00");
  }

  // =====================================================================
  // The validate* middlewares

  /** One entry of the `details` array a middleware answers with. */
  datatype Problem =
    | MissingField(field: string)
    | NameTooShort | EmailInvalid | PasswordTooShort | PhoneInvalid
    | ServiceIdInvalid | DateInvalid | SlotInvalid | LocationTooShort | DateInPast
    | BrandTooShort | ModelTooShort | YearInvalid | ColorTooShort | PlateInvalid | TypeInvalid
    | RatingInvalid | CommentTooLong

  /** The text the middleware puts in `details` for a problem. */
  function Detail(p: Problem): string {
    match p
    case MissingField(f) => f
    case NameTooShort => "Name must be at least 2 characters long"
    case EmailInvalid => "Valid email is required"
    case PasswordTooShort => "Password must be at least 6 characters long"
    case PhoneInvalid => "Invalid phone number format"
    case ServiceIdInvalid => "Valid service ID is required"
    case DateInvalid => "Valid date is required"
    case SlotInvalid => "Valid time slot is required (format: HH:MM-HH:MM)"
    case LocationTooShort => "Location must be at least 5 characters long"
    case DateInPast => "Booking date cannot be in the past"
    case BrandTooShort => "Brand must be at least 2 characters long"
    case ModelTooShort => "Model must be at least 2 characters long"
    case YearInvalid => "Valid year is required"
    case ColorTooShort => "Color must be at least 2 characters long"
    case PlateInvalid => "Valid Indonesian plate number is required"
    case TypeInvalid => "Vehicle type must be either \"car\" or \"motorcycle\""
    case RatingInvalid => "Rating must be an integer between 1 and 5"
    case CommentTooLong => "Comment must not exceed 500 characters"
  }

  /** The place of a rule in the checking order of its middleware: each
      middleware checks its rules in the order they are declared above. */
  function Rank(p: Problem): nat {
    match p
    case MissingField(_) => 0
    case NameTooShort => 1
    case EmailInvalid => 2
    case PasswordTooShort => 3
    case PhoneInvalid => 4
    case ServiceIdInvalid => 5
    case DateInvalid => 6
    case SlotInvalid => 7
    case LocationTooShort => 8
    case DateInPast => 9
    case BrandTooShort => 10
    case ModelTooShort => 11
    case YearInvalid => 12
    case ColorTooShort => 13
    case PlateInvalid => 14
    case TypeInvalid => 15
    case RatingInvalid => 16
    case CommentTooLong => 17
  }

  /** The problems are listed in checking order, each at most once. */
  predicate InRuleOrder(ps: seq<Problem>) {
    forall i, j :: 0 <= i < j < |ps| ==> Rank(ps[i]) < Rank(ps[j])
  }

  /** What a middleware does with the request: call `next()`, or answer
      with a status, an error word and the list of problems found. */
  datatype Verdict = Next | Reject(status: nat, error: string, problems: seq<Problem>)

  /** `!req.body[field] || req.body[field].toString().trim() === ''` */
  predicate IsMissing(body: map<string, Value>, field: string) {
    || field !in body
    || !Truthy(body[field])
    || (body[field].Str? && Trim(body[field].s) == "")
  }

  /** The missing fields, in the order they were asked for. */
  function MissingFields(fields: seq<string>, body: map<string, Value>): seq<Problem>
  {
    if fields == [] then []
    else
      var last := fields[|fields| - 1];
      MissingFields(fields[..|fields| - 1], body) + (if IsMissing(body, last) then [MissingField(last)] else [])
  }

  /** A field is reported exactly when it was asked for and is missing, and
      nothing but missing fields is reported. */
  lemma {:induction false} MissingFieldsExact(fields: seq<string>, body: map<string, Value>)
    ensures forall f :: MissingField(f) in MissingFields(fields, body) <==> f in fields && IsMissing(body, f)
    ensures forall p :: p in MissingFields(fields, body) ==> p.MissingField?
    ensures |MissingFields(fields, body)| <= |fields|
    decreases |fields|
  {
    if fields != [] {
      var init := fields[..|fields| - 1];
      MissingFieldsExact(init, body);
      assert fields == init + [fields[|fields| - 1]];
    }
  }

  /** Numbers and `true` never print as blank, so for them "missing" is
      plain falsiness; a string is missing when it is all white space. */
  lemma MissingMeansBlank(body: map<string, Value>, field: string)
    requires field in body
    ensures body[field].Str? ==> (IsMissing(body, field) <==> AllWhitespace(body[field].s))
    ensures !body[field].Str? ==> (IsMissing(body, field) <==> !Truthy(body[field]))
  {
    if body[field].Str? {
      TrimEmptyIffBlank(body[field].s);
      if body[field].s == "" { assert AllWhitespace(body[field].s); }
    }
  }

  /** `validateRequired(fields)`: scans the fields in order and collects
      every missing one; passes only when none is missing. */
  method ValidateRequired(fields: seq<string>, body: map<string, Value>) returns (v: Verdict)
    ensures v.Next? <==> MissingFields(fields, body) == []
    ensures v.Reject? ==> v == Reject(400, "Missing required fields", MissingFields(fields, body))
  {
    var missing: seq<Problem> := [];
    var i := 0;
    while i < |fields|
      invariant 0 <= i <= |fields|
      invariant missing == MissingFields(fields[..i], body)
    {
      var field := fields[i];
      if field !in body || !Truthy(body[field]) || (body[field].Str? && Trim(body[field].s) == "") {
        missing := missing + [MissingField(field)];
      }
      assert fields[..i + 1][..i] == fields[..i];
      i := i + 1;
    }
    assert fields[..i] == fields;
    if |missing| > 0 {
      return Reject(400, "Missing required fields", missing);
    }
    return Next;
  }

  // ---------------------------------------------------------------------
  // validateUserRegistration

  predicate NameOk(name: Option<string>) { Present(name) && |Trim(name.value)| >= 2 }
  predicate EmailOk(email: Option<string>) { Present(email) && IsValidEmail(email.value) }
  predicate PasswordOk(password: Option<string>) { Present(password) && |password.value| >= 6 }
  predicate PhoneOk(phone: Option<string>) { !Present(phone) || IsValidPhone(phone.value) }

  /** `errors` with `p` pushed on when `bad`. */
  function Report(errors: seq<Problem>, bad: bool, p: Problem): seq<Problem> {
    if bad then errors + [p] else errors
  }

  /** In checking order, with every rule ranked from `lo` up to below `hi`. */
  predicate OrderedWithin(ps: seq<Problem>, lo: nat, hi: nat) {
    InRuleOrder(ps) && forall q :: q in ps ==> lo <= Rank(q) < hi
  }

  /** Pushing a rule checked after every rule already reported keeps the
      list in checking order. */
  lemma ReportInOrder(errors: seq<Problem>, bad: bool, p: Problem, lo: nat)
    requires OrderedWithin(errors, lo, Rank(p)) && lo <= Rank(p)
    ensures OrderedWithin(Report(errors, bad, p), lo, Rank(p) + 1)
  {
  }

  /** The registration problems, given which rules fail, in the order they
      are checked. */
  function RegistrationFlags(name: bool, email: bool, password: bool, phone: bool): seq<Problem> {
    Report(Report(Report(Report([], name, NameTooShort), email, EmailInvalid), password, PasswordTooShort), phone, PhoneInvalid)
  }

  function RegistrationProblems(name: Option<string>, email: Option<string>,
                                password: Option<string>, phone: Option<string>): seq<Problem>
  {
    RegistrationFlags(!NameOk(name), !EmailOk(email), !PasswordOk(password), !PhoneOk(phone))
  }

  /** Every failing rule is reported, and only those, in checking order. */
  lemma RegistrationFlagsExact(name: bool, email: bool, password: bool, phone: bool)
    ensures var ps := RegistrationFlags(name, email, password, phone);
      && (ps == [] <==> !name && !email && !password && !phone)
      && (NameTooShort in ps <==> name) && (EmailInvalid in ps <==> email)
      && (PasswordTooShort in ps <==> password) && (PhoneInvalid in ps <==> phone)
      && |ps| <= 4
  {
  }

  /** The registration problems come in checking order, and none is from
      another middleware; with `RegistrationFlagsExact` this fixes the
      list. */
  lemma RegistrationFlagsInOrder(name: bool, email: bool, password: bool, phone: bool)
    ensures var ps := RegistrationFlags(name, email, password, phone);
      OrderedWithin(ps, Rank(NameTooShort), Rank(PhoneInvalid) + 1)
  {
    var e1 := Report([], name, NameTooShort);
    assert OrderedWithin(e1, 1, 2) by { ReportInOrder([], name, NameTooShort, 1); }
    var e2 := Report(e1, email, EmailInvalid);
    assert OrderedWithin(e2, 1, 3) by { ReportInOrder(e1, email, EmailInvalid, 1); }
    var e3 := Report(e2, password, PasswordTooShort);
    assert OrderedWithin(e3, 1, 4) by { ReportInOrder(e2, password, PasswordTooShort, 1); }
    ReportInOrder(e3, phone, PhoneInvalid, 1);
  }

  /** Collects every broken registration rule, not just the first. */
  method ValidateUserRegistration(name: Option<string>, email: Option<string>,
                                  password: Option<string>, phone: Option<string>)
    returns (v: Verdict)
    ensures var ps := RegistrationProblems(name, email, password, phone);
      v == if ps == [] then Next else Reject(400, "Validation failed", ps)
  {
    var errors: seq<Problem> := [];
    if !NameOk(name) {
      errors := errors + [NameTooShort];
    }
    if !EmailOk(email) {
      errors := errors + [EmailInvalid];
    }
    if !PasswordOk(password) {
      errors := errors + [PasswordTooShort];
    }
    if !PhoneOk(phone) {
      errors := errors + [PhoneInvalid];
    }
    if |errors| > 0 {
      return Reject(400, "Validation failed", errors);
    }
    return Next;
  }

  // ---------------------------------------------------------------------
  // validateBooking

  predicate ServiceIdOk(serviceId: Value) { Truthy(serviceId) && serviceId.Str? }
  predicate SlotOk(timeSlot: Option<string>) { Present(timeSlot) && IsValidTimeSlot(timeSlot.value) }
  predicate LocationOk(location: Option<string>) { Present(location) && |Trim(location.value)| >= 5 }

  /** `String(v)`: the text `Date.parse` reads when given `v`. */
  function ValueText(v: Value): string {
    match v
    case Str(s) => s
    case Num(n) => if n < 0 then "-" + NatToString(-n) else NatToString(n)
    case Bool(b) => if b then "true" else "false"
    case Null => "null"
  }

  /** `date && !isNaN(Date.parse(date))`; `parse` is `Date.parse` on a
      text, None where it gives NaN. `date` is None when the body has no
      date. */
  predicate DateOk(date: Option<Value>, parse: string -> Option<int>) {
    date.Some? && Truthy(date.value) && parse(ValueText(date.value)).Some?
  }

  /** The largest distance from 1970 a JavaScript date can have, in ms. */
  const MaxTime: int := 8640000000000000

  /** The time of `new Date(date)`, None for an Invalid Date: a text is
      parsed as `Date.parse` does, a number is the time itself (when in
      range), `false`/`true` are 0 and 1, `null` is 0, and an absent date
      is an Invalid Date. */
  function DateInstant(date: Option<Value>, parse: string -> Option<int>): Option<int> {
    match date
    case None => None
    case Some(v) =>
      match v
      case Str(s) => parse(s)
      case Num(n) => if -MaxTime <= n <= MaxTime then Some(n) else None
      case Bool(b) => Some(if b then 1 else 0)
      case Null => Some(0)
  }

  /** `new Date(date) < today` is false: an Invalid Date compares false,
      so it is never reported as past. This check is separate from the
      parse check, so `null`, `false`, `0` and the like fail both. */
  predicate NotPast(date: Option<Value>, parse: string -> Option<int>, today: int) {
    var t := DateInstant(date, parse);
    t.None? || t.value >= today
  }

  function BookingFlags(service: bool, date: bool, slot: bool, location: bool, past: bool): seq<Problem> {
    Report(Report(Report(Report(Report([], service, ServiceIdInvalid), date, DateInvalid), slot, SlotInvalid), location, LocationTooShort), past, DateInPast)
  }

  function BookingProblems(serviceId: Value, date: Option<Value>, timeSlot: Option<string>,
                           location: Option<string>, parse: string -> Option<int>, today: int): seq<Problem>
  {
    BookingFlags(!ServiceIdOk(serviceId), !DateOk(date, parse), !SlotOk(timeSlot), !LocationOk(location),
                 !NotPast(date, parse, today))
  }

  lemma BookingFlagsExact(service: bool, date: bool, slot: bool, location: bool, past: bool)
    ensures var ps := BookingFlags(service, date, slot, location, past);
      && (ps == [] <==> !service && !date && !slot && !location && !past)
      && (ServiceIdInvalid in ps <==> service) && (DateInvalid in ps <==> date)
      && (SlotInvalid in ps <==> slot) && (LocationTooShort in ps <==> location)
      && (DateInPast in ps <==> past)
  {
  }

  /** The booking problems come in checking order, and none is from
      another middleware. */
  lemma BookingFlagsInOrder(service: bool, date: bool, slot: bool, location: bool, past: bool)
    ensures var ps := BookingFlags(service, date, slot, location, past);
      OrderedWithin(ps, Rank(ServiceIdInvalid), Rank(DateInPast) + 1)
  {
    var e1 := Report([], service, ServiceIdInvalid);
    assert OrderedWithin(e1, 5, 6) by { ReportInOrder([], service, ServiceIdInvalid, 5); }
    var e2 := Report(e1, date, DateInvalid);
    assert OrderedWithin(e2, 5, 7) by { ReportInOrder(e1, date, DateInvalid, 5); }
    var e3 := Report(e2, slot, SlotInvalid);
    assert OrderedWithin(e3, 5, 8) by { ReportInOrder(e2, slot, SlotInvalid, 5); }
    var e4 := Report(e3, location, LocationTooShort);
    assert OrderedWithin(e4, 5, 9) by { ReportInOrder(e3, location, LocationTooShort, 5); }
    ReportInOrder(e4, past, DateInPast, 5);
  }

  /** `date` is the request's date as sent, `parse` is `Date.parse` and
      `today` the start of the current day in ms. */
  method ValidateBooking(serviceId: Value, date: Option<Value>, timeSlot: Option<string>,
                         location: Option<string>, parse: string -> Option<int>, today: int)
    returns (v: Verdict)
    ensures var ps := BookingProblems(serviceId, date, timeSlot, location, parse, today);
      v == if ps == [] then Next else Reject(400, "Validation failed", ps)
  {
    var errors: seq<Problem> := [];
    if !ServiceIdOk(serviceId) {
      errors := errors + [ServiceIdInvalid];
    }
    if !DateOk(date, parse) {
      errors := errors + [DateInvalid];
    }
    if !SlotOk(timeSlot) {
      errors := errors + [SlotInvalid];
    }
    if !LocationOk(location) {
      errors := errors + [LocationTooShort];
    }
    var bookingDate := DateInstant(date, parse);
    if bookingDate.Some? && bookingDate.value < today {
      errors := errors + [DateInPast];
    }
    if |errors| > 0 {
      return Reject(400, "Validation failed", errors);
    }
    return Next;
  }

  /** A `null` date fails the parse check and, as `new Date(null)` is
      1970-01-01, the past-date check too: both problems are reported. */
  lemma NullDateReportedTwice(serviceId: Value, timeSlot: Option<string>, location: Option<string>,
                              parse: string -> Option<int>, today: int)
    requires today > 0
    ensures var ps := BookingProblems(serviceId, Some(Null), timeSlot, location, parse, today);
      DateInvalid in ps && DateInPast in ps
  {
    BookingFlagsExact(!ServiceIdOk(serviceId), true, !SlotOk(timeSlot), !LocationOk(location), true);
  }

  /** An absent date is reported as invalid and never as past. */
  lemma AbsentDateNotPast(serviceId: Value, timeSlot: Option<string>, location: Option<string>,
                          parse: string -> Option<int>, today: int)
    ensures var ps := BookingProblems(serviceId, None, timeSlot, location, parse, today);
      DateInvalid in ps && DateInPast !in ps
  {
    BookingFlagsExact(!ServiceIdOk(serviceId), true, !SlotOk(timeSlot), !LocationOk(location), false);
  }

  // ---------------------------------------------------------------------
  // validateVehicle

  predicate LongEnough(o: Option<string>, n: nat) { Present(o) && |Trim(o.value)| >= n }
  predicate YearOk(year: Option<int>, currentYear: int) {
    PresentNum(year) && 1900 <= year.value <= currentYear + 1
  }
  predicate PlateOk(plate: Option<string>) { Present(plate) && IsValidPlateNumber(plate.value) }
  predicate TypeOk(vehicleType: Option<string>) { Present(vehicleType) && IsValidVehicleType(vehicleType.value) }

  function VehicleFlags(brand: bool, model: bool, year: bool, color: bool, plate: bool, vtype: bool): seq<Problem> {
    Report(Report(Report(Report(Report(Report([], brand, BrandTooShort), model, ModelTooShort), year, YearInvalid), color, ColorTooShort), plate, PlateInvalid), vtype, TypeInvalid)
  }

  function VehicleProblems(brand: Option<string>, model: Option<string>, year: Option<int>,
                           color: Option<string>, plateNumber: Option<string>,
                           vehicleType: Option<string>, currentYear: int): seq<Problem>
  {
    VehicleFlags(!LongEnough(brand, 2), !LongEnough(model, 2), !YearOk(year, currentYear),
                 !LongEnough(color, 2), !PlateOk(plateNumber), !TypeOk(vehicleType))
  }

  lemma VehicleFlagsExact(brand: bool, model: bool, year: bool, color: bool, plate: bool, vtype: bool)
    ensures var ps := VehicleFlags(brand, model, year, color, plate, vtype);
      && (ps == [] <==> !brand && !model && !year && !color && !plate && !vtype)
      && (BrandTooShort in ps <==> brand) && (ModelTooShort in ps <==> model)
      && (YearInvalid in ps <==> year) && (ColorTooShort in ps <==> color)
      && (PlateInvalid in ps <==> plate) && (TypeInvalid in ps <==> vtype)
  {
  }

  /** The vehicle problems come in checking order, and none is from
      another middleware. */
  lemma VehicleFlagsInOrder(brand: bool, model: bool, year: bool, color: bool, plate: bool, vtype: bool)
    ensures var ps := VehicleFlags(brand, model, year, color, plate, vtype);
      OrderedWithin(ps, Rank(BrandTooShort), Rank(TypeInvalid) + 1)
  {
    var e1 := Report([], brand, BrandTooShort);
    assert OrderedWithin(e1, 10, 11) by { ReportInOrder([], brand, BrandTooShort, 10); }
    var e2 := Report(e1, model, ModelTooShort);
    assert OrderedWithin(e2, 10, 12) by { ReportInOrder(e1, model, ModelTooShort, 10); }
    var e3 := Report(e2, year, YearInvalid);
    assert OrderedWithin(e3, 10, 13) by { ReportInOrder(e2, year, YearInvalid, 10); }
    var e4 := Report(e3, color, ColorTooShort);
    assert OrderedWithin(e4, 10, 14) by { ReportInOrder(e3, color, ColorTooShort, 10); }
    var e5 := Report(e4, plate, PlateInvalid);
    assert OrderedWithin(e5, 10, 15) by { ReportInOrder(e4, plate, PlateInvalid, 10); }
    ReportInOrder(e5, vtype, TypeInvalid, 10);
  }

  /** `currentYear` is the calendar year of the clock at the time of the call. */
  method ValidateVehicle(brand: Option<string>, model: Option<string>, year: Option<int>,
                         color: Option<string>, plateNumber: Option<string>,
                         vehicleType: Option<string>, currentYear: int)
    returns (v: Verdict)
    ensures var ps := VehicleProblems(brand, model, year, color, plateNumber, vehicleType, currentYear);
      v == if ps == [] then Next else Reject(400, "Validation failed", ps)
  {
    var badBrand, badModel, badYear := !LongEnough(brand, 2), !LongEnough(model, 2), !YearOk(year, currentYear);
    var badColor, badPlate, badType := !LongEnough(color, 2), !PlateOk(plateNumber), !TypeOk(vehicleType);
    // The six checks push in this order; `VehicleFlags` is that chain of pushes.
    var errors := VehicleFlags(badBrand, badModel, badYear, badColor, badPlate, badType);
    if |errors| > 0 {
      return Reject(400, "Validation failed", errors);
    }
    return Next;
  }

  // ---------------------------------------------------------------------
  // validateReview

  predicate RatingOk(rating: Option<int>) { PresentNum(rating) && IsValidRating(rating.value) }
  predicate CommentOk(comment: Option<string>) { !Present(comment) || |Trim(comment.value)| <= 500 }

  function ReviewFlags(rating: bool, comment: bool): seq<Problem> {
    Report(Report([], rating, RatingInvalid), comment, CommentTooLong)
  }

  function ReviewProblems(rating: Option<int>, comment: Option<string>): seq<Problem> {
    ReviewFlags(!RatingOk(rating), !CommentOk(comment))
  }

  lemma ReviewFlagsExact(rating: bool, comment: bool)
    ensures var ps := ReviewFlags(rating, comment);
      && (ps == [] <==> !rating && !comment)
      && (RatingInvalid in ps <==> rating) && (CommentTooLong in ps <==> comment)
  {
  }

  /** The review problems come in checking order, and none is from another
      middleware. */
  lemma ReviewFlagsInOrder(rating: bool, comment: bool)
    ensures var ps := ReviewFlags(rating, comment);
      OrderedWithin(ps, Rank(RatingInvalid), Rank(CommentTooLong) + 1)
  {
    var e1 := Report([], rating, RatingInvalid);
    assert OrderedWithin(e1, 16, 17) by { ReportInOrder([], rating, RatingInvalid, 16); }
    ReportInOrder(e1, comment, CommentTooLong, 16);
  }

  method ValidateReview(rating: Option<int>, comment: Option<string>) returns (v: Verdict)
    ensures var ps := ReviewProblems(rating, comment);
      v == if ps == [] then Next else Reject(400, "Validation failed", ps)
  {
    var errors: seq<Problem> := [];
    if !RatingOk(rating) {
      errors := errors + [RatingInvalid];
    }
    if !CommentOk(comment) {
      errors := errors + [CommentTooLong];
    }
    if |errors| > 0 {
      return Reject(400, "Validation failed", errors);
    }
    return Next;
  }
}
