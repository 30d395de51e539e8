/** SKUs of merchandise variants: generated, disambiguated, and unique within a product. */
module Sku {
  import opened Common

  const MAX_SUFFIX_ATTEMPTS: nat := 1000
  const MAX_VARIANT_STOCK: nat := 1000000

  // ---- decimal suffixes ----------------------------------------------------------------

  function Digit(d: nat): char
    requires d < 10
  {
    '0' + d as char
  }

  function Decimal(n: nat): (s: string)
    ensures s != []
  {
    if n < 10 then [Digit(n)] else Decimal(n / 10) + [Digit(n % 10)]
  }

  lemma {:induction false} DecimalIsInjective(a: nat, b: nat)
    requires Decimal(a) == Decimal(b)
    ensures a == b
  {
    var s, t := Decimal(a), Decimal(b);
    assert s[|s| - 1] == Digit(a % 10) && t[|t| - 1] == Digit(b % 10);
    if a >= 10 && b >= 10 {
      assert Decimal(a / 10) == s[..|s| - 1] && Decimal(b / 10) == t[..|t| - 1];
      DecimalIsInjective(a / 10, b / 10);
    }
  }

  /** A string of digits, read as a decimal numeral. */
  function Reading(s: string): int {
    if s == "" then 0 else 10 * Reading(s[..|s| - 1]) + (s[|s| - 1] as int - 48)
  }

  /** The decimal numeral of `n`: digits without a leading zero that read as it. */
  predicate IsNumeral(s: string, n: nat) {
    s != "" && (s[0] == '0' ==> n == 0) && (forall k :: 0 <= k < |s| ==> '0' <= s[k] <= '9') && Reading(s) == n
  }

  lemma {:induction false} DecimalReads(n: nat)
    ensures IsNumeral(Decimal(n), n)
  {
    if n < 10 {
      assert Decimal(n)[..0] == "";
    } else {
      DecimalReads(n / 10);
      assert Decimal(n)[..|Decimal(n)| - 1] == Decimal(n / 10);
    }
  }

  // ---- disambiguateSku -----------------------------------------------------------------

  /** The i-th attempt: the base itself, then base-2, base-3 and so on. */
  function Candidate(base: string, i: nat): string {
    if i == 0 then base else base + "-" + Decimal(i + 1)
  }

  lemma {:induction false} CandidatesDiffer(base: string, i: nat, j: nat)
    requires i != j
    ensures Candidate(base, i) != Candidate(base, j)
  {
    if i > 0 && j > 0 && Candidate(base, i) == Candidate(base, j) {
      assert Candidate(base, i)[|base| + 1..] == Decimal(i + 1) && Candidate(base, j)[|base| + 1..] == Decimal(j + 1);
      DecimalIsInjective(i + 1, j + 1);
    } else if i == 0 {
      assert |Candidate(base, j)| > |base|;
    } else if j == 0 {
      assert |Candidate(base, i)| > |base|;
    }
  }

  /** Attempt 0 is the base, attempt i the base, a dash and the numeral of i + 1. */
  lemma {:induction false} CandidateReads(base: string, i: nat)
    ensures Candidate(base, 0) == base
    ensures i > 0 ==> exists numeral :: Candidate(base, i) == base + "-" + numeral && IsNumeral(numeral, i + 1)
  {
    DecimalReads(i + 1);
    assert i > 0 ==> Candidate(base, i) == base + "-" + Decimal(i + 1);
  }

  ghost function Candidates(base: string, n: nat): set<string> {
    set i: nat | i < n :: Candidate(base, i)
  }

  lemma {:induction false} CandidateCount(base: string, n: nat)
    ensures |Candidates(base, n)| == n
  {
    if n > 0 {
      CandidateCount(base, n - 1);
      forall i: nat | i < n - 1 ensures Candidate(base, i) != Candidate(base, n - 1) {
        CandidatesDiffer(base, i, n - 1);
      }
      assert Candidates(base, n) == Candidates(base, n - 1) + {Candidate(base, n - 1)};
    }
  }

  /** The first free candidate; it is refused exactly when all 999 are taken. */
  method DisambiguateSku(base: string, taken: set<string>) returns (sku: Option<string>)
    ensures sku.None? <==> Candidates(base, 999) <= taken
    ensures sku.Some? ==>
      && sku.value !in taken
      && exists i: nat :: i < 999 && sku.value == Candidate(base, i) && forall j: nat :: j < i ==>
         Candidate(base, j) in taken
    ensures |taken| < 999 ==> sku.Some?
  {
    CandidateCount(base, MAX_SUFFIX_ATTEMPTS - 1);
    if Candidates(base, MAX_SUFFIX_ATTEMPTS - 1) <= taken {
      SubsetSize(Candidates(base, MAX_SUFFIX_ATTEMPTS - 1), taken);
    }
    assert Candidate(base, 0) in Candidates(base, MAX_SUFFIX_ATTEMPTS - 1);
    if base !in taken {
      return Some(base);
    }
    var suffix := 2;
    while suffix < MAX_SUFFIX_ATTEMPTS
      invariant 2 <= suffix <= MAX_SUFFIX_ATTEMPTS
      invariant forall j: nat :: j < suffix - 1 ==> Candidate(base, j) in taken
    {
      var candidate := base + "-" + Decimal(suffix);
      assert candidate == Candidate(base, suffix - 1);
      if candidate !in taken {
        assert candidate in Candidates(base, MAX_SUFFIX_ATTEMPTS - 1);
        return Some(candidate);
      }
      suffix := suffix + 1;
    }
    sku := None;
  }

  // ---- generateSku ------------------------------------------------------------------------

  function UpperChar(c: char): char {
    if 'a' <= c <= 'z' then c - 'a' + 'A' else c
  }

  function Upper(s: string): (r: string)
    ensures |r| == |s|
  {
    seq(|s|, i requires 0 <= i < |s| => UpperChar(s[i]))
  }

  predicate Alphanumeric(c: char) {
    'A' <= c <= 'Z' || 'a' <= c <= 'z' || '0' <= c <= '9'
  }

  function OnlyAlphanumeric(s: string): (r: string)
    ensures |r| <= |s| && forall i :: 0 <= i < |r| ==> Alphanumeric(r[i])
  {
    if s == [] then [] else (if Alphanumeric(s[0]) then [s[0]] else []) + OnlyAlphanumeric(s[1..])
  }

  /** Upper-cased, with everything but letters and digits removed. */
  function Slug(part: string): string {
    OnlyAlphanumeric(Upper(part))
  }

  function IdPart(id: string): string {
    var plain := OnlyAlphanumeric(id);
    Upper(plain[..if |plain| < 4 then |plain| else 4])
  }

  function Joined(segments: seq<string>): string {
    if segments == [] then ""
    else if |segments| == 1 then segments[0]
    else Joined(segments[..|segments| - 1]) + "-" + segments[|segments| - 1]
  }

  function Segment(part: Option<string>): seq<string> {
    if part.Some? && Slug(part.value) != "" then [Slug(part.value)] else []
  }

  /** Of a text exactly the letters and digits are kept, in their order. */
  lemma {:induction false} KeepsLettersAndDigits(c: char, s: string)
    ensures OnlyAlphanumeric("") == ""
    ensures OnlyAlphanumeric([c] + s) ==
      (if 'A' <= c <= 'Z' || 'a' <= c <= 'z' || '0' <= c <= '9' then [c] else "") + OnlyAlphanumeric(s)
  {
    assert ([c] + s)[1..] == s;
  }

  /** `large` is `small` with its letter as a capital. */
  predicate CapitalOf(small: char, large: char) {
    if 'a' <= small <= 'z' then large as int == small as int - 32 else large == small
  }

  ghost predicate InCapitals(s: string, upper: string) {
    |upper| == |s| && forall i :: 0 <= i < |s| ==> CapitalOf(s[i], upper[i])
  }

  lemma {:induction false} UpperTells(s: string)
    ensures InCapitals(s, Upper(s))
  {
  }

  function Dashed(part: Option<string>): string {
    if part.None? || Slug(part.value) == "" then "" else "-" + Slug(part.value)
  }

  lemma {:induction false} JoinedOne(segments: seq<string>, part: Option<string>)
    requires segments != []
    ensures Joined(segments + Segment(part)) == Joined(segments) + Dashed(part)
  {
    if Segment(part) == [] {
      assert segments + Segment(part) == segments;
    } else {
      assert (segments + Segment(part))[..|segments|] == segments;
    }
  }

  /** MERCH, the id, and size and colour where something is left of them. */
  lemma {:induction false} GeneratedReads(id: string, size: Option<string>, color: Option<string>)
    ensures Joined(["MERCH", IdPart(id)] + Segment(size) + Segment(color)) ==
      "MERCH-" + IdPart(id) + Dashed(size) + Dashed(color)
  {
    var start := ["MERCH", IdPart(id)];
    StartReads(IdPart(id));
    JoinedOne(start, size);
    JoinedOne(start + Segment(size), color);
  }

  lemma {:induction false} StartReads(part: string)
    ensures Joined(["MERCH", part]) == "MERCH-" + part
  {
    assert ["MERCH", part][..1] == ["MERCH"];
  }

  /** The id stands for itself with its first four letters or digits, or all of them, in capitals. */
  lemma {:induction false} IdReads(id: string)
    ensures var plain := OnlyAlphanumeric(id);
      InCapitals(if |plain| < 4 then plain else plain[..4], IdPart(id))
  {
    var plain := OnlyAlphanumeric(id);
    UpperTells(plain[..if |plain| < 4 then |plain| else 4]);
    assert plain[..|plain|] == plain;
  }

  /** A segment is the letters and digits of the text in capitals. */
  lemma {:induction false} SlugReads(part: string)
    ensures exists upper :: InCapitals(part, upper) && Slug(part) == OnlyAlphanumeric(upper)
  {
    UpperTells(part);
  }

  method GenerateSku(id: string, size: Option<string>, color: Option<string>) returns (sku: string)
    ensures sku == Joined(["MERCH", IdPart(id)] + Segment(size) + Segment(color))
    ensures forall i :: 0 <= i < |sku| ==> 'A' <= sku[i] <= 'Z' || '0' <= sku[i] <= '9' || sku[i] == '-'
  {
    var segments := ["MERCH", IdPart(id)];
    var sizePart := if size.Some? then Slug(size.value) else "";
    var colorPart := if color.Some? then Slug(color.value) else "";
    if sizePart != "" {
      segments := segments + [sizePart];
    }
    if colorPart != "" {
      segments := segments + [colorPart];
    }
    assert segments == ["MERCH", IdPart(id)] + Segment(size) + Segment(color);
    SegmentsAreClean(id, size, color);
    JoinedIsClean(segments);
    sku := Joined(segments);
  }

  predicate Clean(s: string) {
    forall i :: 0 <= i < |s| ==> 'A' <= s[i] <= 'Z' || '0' <= s[i] <= '9' || s[i] == '-'
  }

  lemma {:induction false} UpperIsClean(s: string)
    requires forall i :: 0 <= i < |s| ==> Alphanumeric(s[i])
    ensures Clean(Upper(s))
  {
  }

  lemma {:induction false} SlugIsClean(s: string)
    ensures Clean(OnlyAlphanumeric(Upper(s)))
    decreases |s|
  {
    if s != [] {
      SlugIsClean(s[1..]);
      assert Upper(s)[1..] == Upper(s[1..]);
    }
  }

  lemma {:induction false} SegmentsAreClean(id: string, size: Option<string>, color: Option<string>)
    ensures var segments := ["MERCH", IdPart(id)] + Segment(size) + Segment(color);
      forall i :: 0 <= i < |segments| ==> Clean(segments[i])
  {
    var plain := OnlyAlphanumeric(id);
    UpperIsClean(plain[..if |plain| < 4 then |plain| else 4]);
    if size.Some? { SlugIsClean(size.value); }
    if color.Some? { SlugIsClean(color.value); }
  }

  lemma {:induction false} JoinedIsClean(segments: seq<string>)
    requires forall i :: 0 <= i < |segments| ==> Clean(segments[i])
    ensures Clean(Joined(segments))
  {
    if |segments| > 1 { JoinedIsClean(segments[..|segments| - 1]); }
  }

  // ---- resolveVariants -----------------------------------------------------------------------

  /** A submitted variant; the texts are already trimmed, an empty `size` or `color` is `None`. */
  datatype Submitted = Submitted(sku: Option<string>, size: Option<string>, color: Option<string>, stock: Option<int>)

  datatype Variant = Variant(size: Option<string>, color: Option<string>, sku: string, stock: nat)

  datatype Refusal = BadStock | SkuInUse(sku: string) | NoFreeSku(base: string)

  predicate StockOk(stock: Option<int>) {
    stock.Some? ==> 0 <= stock.value <= MAX_VARIANT_STOCK
  }

  function SkusOf(rows: seq<Variant>): set<string> {
    set i | 0 <= i < |rows| :: rows[i].sku
  }

  function BaseSku(id: string, v: Submitted): string {
    Joined(["MERCH", IdPart(id)] + Segment(v.size) + Segment(v.color))
  }

  /** The first candidate that is not taken. */
  ghost predicate FirstFree(base: string, taken: set<string>, sku: string) {
    && sku !in taken
    && exists i: nat :: i < MAX_SUFFIX_ATTEMPTS - 1 && sku == Candidate(base, i) && forall j: nat :: j < i ==>
       Candidate(base, j) in taken
  }

  /** Row `i` is what was submitted, under its own SKU or else the first free one at that point. */
  ghost predicate ResolvedAt(id: string, v: Submitted, taken: set<string>, row: Variant) {
    && StockOk(v.stock) && row.size == v.size && row.color == v.color
    && row.stock == (if v.stock.Some? then v.stock.value else 0)
    && row.sku !in taken
    && (if v.sku.Some? then row.sku == Upper(v.sku.value) else FirstFree(BaseSku(id, v), taken, row.sku))
  }

  /** Why the next variant was refused. */
  ghost predicate RefusedFor(id: string, v: Submitted, taken: set<string>, why: Refusal) {
    match why
    case BadStock => !StockOk(v.stock)
    case SkuInUse(sku) => v.sku.Some? && sku == Upper(v.sku.value) && sku in taken
    case NoFreeSku(base) =>
      v.sku == None && base == BaseSku(id, v) && Candidates(base, MAX_SUFFIX_ATTEMPTS - 1) <= taken
  }

  ghost predicate Resolved(id: string, submitted: seq<Submitted>, existing: set<string>, rows: seq<Variant>) {
    && |rows| <= |submitted|
    && forall i {:trigger rows[i]} :: 0 <= i < |rows| ==>
       ResolvedAt(id, submitted[i], existing + SkusOf(rows[..i]), rows[i])
  }

  lemma {:induction false} OneMoreRow(id: string, submitted: seq<Submitted>, existing: set<string>, rows: seq<Variant>,
      row: Variant)
    requires Resolved(id, submitted, existing, rows) && |rows| < |submitted|
    requires ResolvedAt(id, submitted[|rows|], existing + SkusOf(rows), row)
    ensures Resolved(id, submitted, existing, rows + [row]) &&
      existing + SkusOf(rows + [row]) == existing + SkusOf(rows) + {row.sku}
  {
    var more := rows + [row];
    forall i | 0 <= i < |more| ensures ResolvedAt(id, submitted[i], existing + SkusOf(more[..i]), more[i]) {
      assert more[..i] == rows[..i];
      if i < |rows| { assert more[i] == rows[i]; } else { assert rows[..i] == rows; }
    }
    forall sku | sku in SkusOf(rows) + {row.sku} ensures sku in SkusOf(more) {
      if sku in SkusOf(rows) {
        var i :| 0 <= i < |rows| && rows[i].sku == sku;
        assert more[i].sku == sku;
      } else {
        assert more[|rows|].sku == sku;
      }
    }
  }

  /** Resolved rows carry pairwise distinct SKUs, none of which existed before. */
  lemma {:induction false} ResolvedAreDistinct(id: string, submitted: seq<Submitted>, existing: set<string>,
      rows: seq<Variant>)
    requires Resolved(id, submitted, existing, rows)
    ensures forall i :: 0 <= i < |rows| ==> rows[i].sku !in existing
    ensures forall i, j :: 0 <= i < j < |rows| ==> rows[i].sku != rows[j].sku
  {
    forall i, j | 0 <= i < j < |rows| ensures rows[i].sku != rows[j].sku {
      assert rows[..j][i] == rows[i];
      assert rows[i].sku in SkusOf(rows[..j]);
    }
  }

  lemma {:induction false} FewSkus(rows: seq<Variant>)
    ensures |SkusOf(rows)| <= |rows|
    decreases |rows|
  {
    if rows == [] {
      assert SkusOf(rows) == {};
    } else {
      var init := rows[..|rows| - 1];
      FewSkus(init);
      assert SkusOf(rows) == SkusOf(init) + {rows[|rows| - 1].sku};
    }
  }

  lemma {:induction false} FewTaken(existing: set<string>, rows: seq<Variant>)
    ensures |existing + SkusOf(rows)| <= |existing| + |rows|
  {
    FewSkus(rows);
    assert existing + SkusOf(rows) == existing + (SkusOf(rows) - existing);
    SubsetSize(SkusOf(rows) - existing, SkusOf(rows));
  }

  /** The SKU of a variant that names none: the first free one. */
  method FreeSku(id: string, v: Submitted, taken: set<string>) returns (sku: Option<string>, base: string)
    ensures base == BaseSku(id, v)
    ensures sku.Some? ==> FirstFree(base, taken, sku.value)
    ensures sku.None? ==> Candidates(base, MAX_SUFFIX_ATTEMPTS - 1) <= taken
    ensures |taken| < MAX_SUFFIX_ATTEMPTS - 1 ==> sku.Some?
  {
    base := GenerateSku(id, v.size, v.color);
    sku := DisambiguateSku(base, taken);
  }

  /**
   * One row per submitted variant, in order, each under its own SKU or the first free
   * one. On a refusal `rows` are those resolved before it, and the refusal is about
   * the next one: a stock out of range, a SKU that really is taken, or no free candidate.
   */
  method ResolveVariants(id: string, submitted: seq<Submitted>, existing: set<string>)
    returns (outcome: Result<seq<Variant>, Refusal>, ghost rows: seq<Variant>)
    ensures Resolved(id, submitted, existing, rows)
    ensures outcome.Ok? ==> outcome.value == rows && |rows| == |submitted|
    ensures outcome.Ok? ==> forall i :: 0 <= i < |outcome.value| ==> outcome.value[i].sku !in existing
    ensures outcome.Ok? ==> forall i, j :: 0 <= i < j < |outcome.value| ==> outcome.value[i].sku != outcome.value[j].sku
    ensures outcome.Err? ==>
      |rows| < |submitted| && RefusedFor(id, submitted[|rows|], existing + SkusOf(rows), outcome.error)
    ensures |existing| + |submitted| < MAX_SUFFIX_ATTEMPTS ==> !(outcome.Err? && outcome.error.NoFreeSku?)
  {
    var taken := existing;
    var done: seq<Variant> := [];
    rows := done;
    for n := 0 to |submitted|
      invariant rows == done && |done| == n && taken == existing + SkusOf(done)
      invariant Resolved(id, submitted, existing, done)
    {
      var dto := submitted[n];
      if dto.stock.Some? && (dto.stock.value < 0 || dto.stock.value > MAX_VARIANT_STOCK) {
        return Err(BadStock), rows;
      }
      var sku: string;
      if dto.sku.Some? {
        sku := Upper(dto.sku.value);
        if sku in taken {
          return Err(SkuInUse(sku)), rows;
        }
      } else {
        FewTaken(existing, done);
        var free, base := FreeSku(id, dto, taken);
        if free == None {
          return Err(NoFreeSku(base)), rows;
        }
        sku := free.value;
      }
      var row := Variant(dto.size, dto.color, sku, if dto.stock.Some? then dto.stock.value else 0);
      assert ResolvedAt(id, dto, taken, row);
      OneMoreRow(id, submitted, existing, done, row);
      taken := taken + {sku};
      done := done + [row];
      rows := done;
    }
    ResolvedAreDistinct(id, submitted, existing, done);
    outcome := Ok(done);
  }
}
