/**
 * The statement import endpoint (app/api/transactions/import/route.ts):
 * resolving which column feeds each field, validating the required fields,
 * cleaning and parsing each row, and writing the surviving rows in one bulk
 * insert with accounts looked up or created once per name.
 *
 * `new Date(...)` is opaque: it is the parameter `parseDate`, which yields an
 * instant (milliseconds since the epoch) or None for an invalid date.
 */
module ImportRoute {
  import opened Wrappers
  import opened Text
  import opened Domain

  /** One uploaded row: column name to cell text (a `Record<string, string>`). */
  type Row = map<string, string>

  /** The `targetToSource` record: canonical field to the source column feeding it. */
  type TargetToSource = map<string, string>

  const REQUIRED_FIELDS: seq<string> := ["date", "amount", "description"]

  /** `v || fallback` */
  function Or(v: Option<string>, fallback: string): string {
    if Truthy(v) then v.value else fallback
  }

  /** `m[key]`, undefined when the key is absent. */
  function Lookup(m: map<string, string>, key: string): Option<string> {
    if key in m then Some(m[key]) else None
  }

  // ---------------------------------------------------------------------------
  // buildTargetToSource

  /** One step of the `reduce`: record `source` for `target` unless `target` is
      empty, "ignore", or already holds a truthy source. */
  function Absorb(acc: TargetToSource, entry: (string, string)): (r: TargetToSource)
    ensures forall f :: f != entry.1 ==> Lookup(r, f) == Lookup(acc, f)
    ensures Truthy(Lookup(acc, entry.1)) ==> r == acc
    ensures entry.1 != "" && entry.1 != "ignore" && !Truthy(Lookup(acc, entry.1)) ==> Lookup(r, entry.1) == Some(entry.0)
    ensures entry.1 == "" || entry.1 == "ignore" ==> r == acc
  {
    var (source, target) := entry;
    if target != "" && target != "ignore" && !Truthy(Lookup(acc, target)) then acc[target := source] else acc
  }

  /** `Object.entries(mapping).reduce(Absorb, {})`, a left fold. */
  function BuildTargetToSource(mapping: ColumnMapping): (r: TargetToSource)
    ensures "" !in r && "ignore" !in r
    ensures forall f :: f in r ==> (r[f], f) in mapping
  {
    if mapping == [] then map[]
    else
      var init := mapping[..|mapping| - 1];
      assert forall e :: e in init ==> e in mapping;
      Absorb(BuildTargetToSource(init), mapping[|mapping| - 1])
  }

  /** The column `targetToSource[field]` designates when it is truthy. */
  function SourceOf(tts: TargetToSource, field: string): Option<string> {
    if Truthy(Lookup(tts, field)) then Some(tts[field]) else None
  }

  /** An entry that names a usable source column for `field`. */
  predicate Designates(entry: (string, string), field: string) {
    entry.1 == field && field != "" && field != "ignore" && entry.0 != ""
  }

  /** Reference definition of first-wins: the source of the first entry, in
      order, that designates `field`. */
  function FirstSource(mapping: ColumnMapping, field: string): (r: Option<string>)
    ensures r.None? <==> forall i :: 0 <= i < |mapping| ==> !Designates(mapping[i], field)
    ensures r.Some? ==> exists i :: 0 <= i < |mapping| && Designates(mapping[i], field) && mapping[i].0 == r.value &&
                                    forall j :: 0 <= j < i ==> !Designates(mapping[j], field)
  {
    if mapping == [] then None
    else if Designates(mapping[0], field) then Some(mapping[0].0)
    else
      var r := FirstSource(mapping[1..], field);
      assert forall i :: 1 <= i < |mapping| ==> mapping[i] == mapping[1..][i - 1];
      r
  }

  lemma {:induction false} FirstSourceSnoc(mapping: ColumnMapping, entry: (string, string), field: string)
    ensures FirstSource(mapping + [entry], field) ==
              if FirstSource(mapping, field).Some? then FirstSource(mapping, field)
              else if Designates(entry, field) then Some(entry.0)
              else None
  {
    if mapping != [] {
      assert (mapping + [entry])[1..] == mapping[1..] + [entry];
      FirstSourceSnoc(mapping[1..], entry, field);
    }
  }

  /** The fold picks, for every field, the first entry designating it; an
      empty or "ignore" target, or an empty source name, never counts. */
  /** One `reduce` step seen from a single field: a field with a source keeps
      it, and one without takes the entry's column if the entry designates it. */
  lemma SourceOfAbsorb(acc: TargetToSource, entry: (string, string), field: string)
    ensures SourceOf(Absorb(acc, entry), field) ==
              if SourceOf(acc, field).Some? then SourceOf(acc, field)
              else if Designates(entry, field) then Some(entry.0)
              else None
  {
  }

  lemma {:induction false} TargetToSourceIsFirstWins(mapping: ColumnMapping, field: string)
    ensures SourceOf(BuildTargetToSource(mapping), field) == FirstSource(mapping, field)
  {
    if mapping != [] {
      var init, last := mapping[..|mapping| - 1], mapping[|mapping| - 1];
      assert mapping == init + [last];
      TargetToSourceIsFirstWins(init, field);
      SourceOfAbsorb(BuildTargetToSource(init), last, field);
      FirstSourceSnoc(init, last, field);
    }
  }

  /** "ignore" and the empty target are never the source of anything. */
  lemma IgnoreIsNeverASource(mapping: ColumnMapping)
    ensures SourceOf(BuildTargetToSource(mapping), "ignore") == None
    ensures SourceOf(BuildTargetToSource(mapping), "") == None
  {
    TargetToSourceIsFirstWins(mapping, "ignore");
    TargetToSourceIsFirstWins(mapping, "");
  }

  lemma {:induction false} FirstSourceAgrees(m: ColumnMapping, m': ColumnMapping, field: string)
    requires |m| == |m'|
    requires forall i :: 0 <= i < |m| ==> Designates(m[i], field) == Designates(m'[i], field)
    requires forall i :: 0 <= i < |m| && Designates(m[i], field) ==> m[i].0 == m'[i].0
    ensures FirstSource(m, field) == FirstSource(m', field)
  {
    if m != [] {
      assert Designates(m[0], field) == Designates(m'[0], field);
      FirstSourceAgrees(m[1..], m'[1..], field);
    }
  }

  /** Re-targeting a column that neither fed nor now feeds `field` does not
      change which column feeds `field`. */
  lemma RetargetUnrelatedColumn(mapping: ColumnMapping, k: nat, newTarget: string, field: string)
    requires k < |mapping| && mapping[k].1 != field && newTarget != field
    ensures SourceOf(BuildTargetToSource(mapping[k := (mapping[k].0, newTarget)]), field) ==
            SourceOf(BuildTargetToSource(mapping), field)
  {
    var m' := mapping[k := (mapping[k].0, newTarget)];
    FirstSourceAgrees(mapping, m', field);
    TargetToSourceIsFirstWins(mapping, field);
    TargetToSourceIsFirstWins(m', field);
  }

  // ---------------------------------------------------------------------------
  // REQUIRED_FIELDS

  function MissingFrom(tts: TargetToSource, fields: seq<string>): (missing: seq<string>)
    ensures forall f :: f in missing <==> f in fields && SourceOf(tts, f).None?
  {
    if fields == [] then []
    else (if SourceOf(tts, fields[0]).None? then [fields[0]] else []) + MissingFrom(tts, fields[1..])
  }

  /** `REQUIRED_FIELDS.filter((field) => !targetToSource[field])`: exactly the
      unmapped required fields, in the order date, amount, description. */
  function MissingRequired(tts: TargetToSource): (missing: seq<string>)
    ensures forall f :: f in missing <==> f in REQUIRED_FIELDS && SourceOf(tts, f).None?
    ensures missing == (if SourceOf(tts, "date").None? then ["date"] else [])
                     + (if SourceOf(tts, "amount").None? then ["amount"] else [])
                     + (if SourceOf(tts, "description").None? then ["description"] else [])
  {
    var one: seq<string> := ["description"];
    var two: seq<string> := ["amount", "description"];
    assert one[1..] == [] && two[1..] == one && REQUIRED_FIELDS[1..] == two;
    assert MissingFrom(tts, one) == (if SourceOf(tts, "description").None? then ["description"] else []);
    assert MissingFrom(tts, two) == (if SourceOf(tts, "amount").None? then ["amount"] else []) + MissingFrom(tts, one);
    MissingFrom(tts, REQUIRED_FIELDS)
  }

  /** The three required fields all have a source. */
  predicate Validated(tts: TargetToSource) {
    SourceOf(tts, "date").Some? && SourceOf(tts, "amount").Some? && SourceOf(tts, "description").Some?
  }

  lemma ValidatedIffNothingMissing(tts: TargetToSource)
    ensures Validated(tts) <==> MissingRequired(tts) == []
  {
  }

  // ---------------------------------------------------------------------------
  // parseAmount and parseDate

  /** Characters that `/[^0-9,.-]/g` does not remove. */
  predicate IsNumberChar(c: char) {
    IsDigit(c) || c == ',' || c == '.' || c == '-'
  }

  /** Characters that survive both replacements in parseAmount. */
  predicate IsAmountChar(c: char) {
    IsDigit(c) || c == '.' || c == '-'
  }

  /** `value.replace(/[^0-9,.-]/g, "")` */
  function StripNonNumberChars(s: string): string {
    if s == [] then [] else (if IsNumberChar(s[0]) then [s[0]] else []) + StripNonNumberChars(s[1..])
  }

  /** `.replace(/,/g, "")` */
  function RemoveCommas(s: string): string {
    if s == [] then [] else (if s[0] != ',' then [s[0]] else []) + RemoveCommas(s[1..])
  }

  /** Reference definition: keep the digits, `.` and `-` of `s`, in order. */
  function KeepAmountChars(s: string): (r: string)
    ensures forall i :: 0 <= i < |r| ==> IsAmountChar(r[i])
  {
    if s == [] then [] else (if IsAmountChar(s[0]) then [s[0]] else []) + KeepAmountChars(s[1..])
  }

  /** The cleaned amount text handed to `Number.parseFloat`. */
  function CleanAmount(s: string): string {
    RemoveCommas(StripNonNumberChars(s))
  }

  /** The two replacements together keep exactly the digits, `.` and `-`,
      in their original order: every other character and every comma is gone. */
  lemma {:induction false} CleanAmountKeepsAmountChars(s: string)
    ensures CleanAmount(s) == KeepAmountChars(s)
  {
    if s != [] {
      CleanAmountKeepsAmountChars(s[1..]);
      var head := if IsNumberChar(s[0]) then [s[0]] else [];
      RemoveCommasAppend(head, StripNonNumberChars(s[1..]));
    }
  }

  lemma {:induction false} RemoveCommasAppend(a: string, b: string)
    ensures RemoveCommas(a + b) == RemoveCommas(a) + RemoveCommas(b)
  {
    if a == [] {
      assert a + b == b;
    } else {
      assert (a + b)[0] == a[0] && (a + b)[1..] == a[1..] + b;
      RemoveCommasAppend(a[1..], b);
    }
  }

  /** The longest run of digits at the start of `s`. */
  function LeadingDigits(s: string): (r: string)
    ensures |r| <= |s| && r == s[..|r|] && AllDigits(r)
    ensures |r| < |s| ==> !IsDigit(s[|r|])
  {
    if s != [] && IsDigit(s[0]) then [s[0]] + LeadingDigits(s[1..]) else []
  }

  function Pow10(n: nat): (r: nat)
    ensures r >= 1
  {
    if n == 0 then 1 else 10 * Pow10(n - 1)
  }

  /** The pieces of a decimal literal at the start of a string. */
  datatype DecimalPrefix = DecimalPrefix(negative: bool, whole: string, fraction: string)

  /** Splits `s` as `-?` then digits, then `.` and digits when a `.` follows. */
  function SplitDecimal(s: string): (p: DecimalPrefix)
    ensures AllDigits(p.whole) && AllDigits(p.fraction)
  {
    var negative := |s| > 0 && s[0] == '-';
    var rest := if negative then s[1..] else s;
    var whole := LeadingDigits(rest);
    var afterWhole := rest[|whole|..];
    var fraction := if |afterWhole| > 0 && afterWhole[0] == '.' then LeadingDigits(afterWhole[1..]) else "";
    DecimalPrefix(negative, whole, fraction)
  }

  /** What the first character decides: the sign, and whether any digits can follow. */
  lemma SplitDecimalStart(s: string)
    ensures SplitDecimal(s).negative <==> s != [] && s[0] == '-'
    ensures s != [] && IsDigit(s[0]) ==> SplitDecimal(s).whole != ""
    ensures (s == [] || (!IsDigit(s[0]) && s[0] != '-' && s[0] != '.')) ==>
              SplitDecimal(s).whole == "" && SplitDecimal(s).fraction == ""
  {
  }

  function DecimalValue(p: DecimalPrefix): (r: real)
    requires AllDigits(p.whole) && AllDigits(p.fraction)
    ensures r < 0.0 ==> p.negative
  {
    var magnitude := DigitsValue(p.whole) as real + DigitsValue(p.fraction) as real / Pow10(|p.fraction|) as real;
    if p.negative then -magnitude else magnitude
  }

  /**
   * `Number.parseFloat` on a string made only of digits, `.` and `-`: the
   * longest prefix of the form `-?D+(.D*)?` or `-?.D+` read as a decimal, or
   * None (NaN) when no such prefix exists. No exponent can occur, since `e`
   * and `+` never survive the cleaning.
   */
  function ParseDecimalPrefix(s: string): (r: Option<real>)
    ensures s != [] && IsDigit(s[0]) ==> r.Some?
    ensures (s == [] || (!IsDigit(s[0]) && s[0] != '-' && s[0] != '.')) ==> r.None?
    ensures r.Some? && r.value < 0.0 ==> s[0] == '-'
  {
    SplitDecimalStart(s);
    var p := SplitDecimal(s);
    if p.whole == "" && p.fraction == "" then None else Some(DecimalValue(p))
  }

  /** `parseAmount(value)`: null for an absent or empty cell, otherwise the
      float read from the cleaned text (null when that is NaN). */
  function ParseAmount(value: Option<string>): (r: Option<real>)
    ensures !Truthy(value) ==> r.None?
    ensures Truthy(value) ==> r == ParseDecimalPrefix(KeepAmountChars(value.value))
  {
    if !Truthy(value) then None
    else
      CleanAmountKeepsAmountChars(value.value);
      ParseDecimalPrefix(CleanAmount(value.value))
  }

  /** The text of an integer as it would appear in a statement cell. */
  function IntToString(n: int): string {
    if n < 0 then ['-'] + NatToString(-n) else NatToString(n)
  }

  lemma {:induction false} LeadingDigitsOfDigits(s: string)
    requires AllDigits(s)
    ensures LeadingDigits(s) == s
  {
    if s != [] { LeadingDigitsOfDigits(s[1..]); }
  }

  lemma {:induction false} KeepAmountCharsOfDigits(s: string)
    requires AllDigits(s)
    ensures KeepAmountChars(s) == s
  {
    if s != [] { KeepAmountCharsOfDigits(s[1..]); }
  }

  lemma ParseDecimalOfDigits(digits: string)
    requires digits != [] && AllDigits(digits)
    ensures ParseDecimalPrefix(digits) == Some(DigitsValue(digits) as real)
  {
    LeadingDigitsOfDigits(digits);
    assert digits[|digits|..] == "";
    assert SplitDecimal(digits) == DecimalPrefix(false, digits, "");
  }

  lemma ParseDecimalOfNegatedDigits(digits: string)
    requires digits != [] && AllDigits(digits)
    ensures ParseDecimalPrefix(['-'] + digits) == Some(-(DigitsValue(digits) as real))
  {
    LeadingDigitsOfDigits(digits);
    assert digits[|digits|..] == "";
    var signed := ['-'] + digits;
    assert signed[0] == '-' && signed[1..] == digits;
    var p := SplitDecimal(signed);
    assert p == DecimalPrefix(true, digits, "");
  }

  /** A whole amount written in plain digits, with or without a minus sign,
      reads back as itself. */
  lemma ParseAmountOfInteger(n: int)
    ensures ParseAmount(Some(IntToString(n))) == Some(n as real)
  {
    var m: nat := if n < 0 then -n else n;
    var digits := NatToString(m);
    NatToStringValue(m);
    KeepAmountCharsOfDigits(digits);
    var s := IntToString(n);
    if n < 0 {
      ParseDecimalOfNegatedDigits(digits);
      assert s[0] == '-' && s[1..] == digits;
      assert KeepAmountChars(s) == ['-'] + digits;
      assert ParseDecimalPrefix(KeepAmountChars(s)) == Some(n as real);
      assert ParseAmount(Some(s)) == ParseDecimalPrefix(KeepAmountChars(s));
    } else {
      ParseDecimalOfDigits(digits);
      assert KeepAmountChars(s) == digits;
      assert ParseDecimalPrefix(KeepAmountChars(s)) == Some(n as real);
      assert s != "";
      assert ParseAmount(Some(s)) == ParseDecimalPrefix(KeepAmountChars(s));
    }
  }

  lemma CleanedDollarExample()
    ensures KeepAmountChars("$1,234.56") == "1234.56"
  {
    assert KeepAmountChars("234.56") == "234.56";
  }

  lemma CleanedNegativeExample()
    ensures KeepAmountChars("-86.50") == "-86.50"
  {
    assert KeepAmountChars("6.50") == "6.50";
  }

  /** The digit run ends exactly where the first non-digit stands. */
  lemma LeadingDigitsUpTo(s: string, n: nat)
    requires n <= |s| && AllDigits(s[..n]) && (n < |s| ==> !IsDigit(s[n]))
    ensures LeadingDigits(s) == s[..n]
  {
    var r := LeadingDigits(s);
    assert forall i :: 0 <= i < |r| ==> s[i] == r[i];
    assert forall i :: 0 <= i < n ==> IsDigit(s[i]) by {
      forall i | 0 <= i < n
        ensures IsDigit(s[i])
      {
        assert s[..n][i] == s[i];
      }
    }
  }

  lemma SplitDollarExample()
    ensures SplitDecimal("1234.56") == DecimalPrefix(false, "1234", "56")
  {
    var s := "1234.56";
    assert s[0] == '1';
    LeadingDigitsUpTo(s, 4);
    assert s[..4] == "1234" && s[4..] == ".56" && ".56"[1..] == "56";
    LeadingDigitsUpTo("56", 2);
    assert SplitDecimal(s) == DecimalPrefix(false, LeadingDigits(s), LeadingDigits(".56"[1..]));
  }

  lemma SplitNegativeExample()
    ensures SplitDecimal("-86.50") == DecimalPrefix(true, "86", "50")
  {
    var s := "86.50";
    assert "-86.50"[1..] == s;
    LeadingDigitsUpTo(s, 2);
    assert s[..2] == "86" && s[2..] == ".50" && ".50"[1..] == "50";
    LeadingDigitsUpTo("50", 2);
  }

  lemma ExampleDigitValues()
    ensures DigitsValue("1234") == 1234 && DigitsValue("56") == 56
    ensures DigitsValue("86") == 86 && DigitsValue("50") == 50
    ensures Pow10(2) == 100
  {
    assert "1234"[..3] == "123" && "123"[..2] == "12" && "12"[..1] == "1" && "1"[..0] == "";
    assert "56"[..1] == "5" && "5"[..0] == "";
    assert "86"[..1] == "8" && "8"[..0] == "";
    assert "50"[..1] == "5";
  }

  /** Currency signs and thousands separators are dropped. */
  lemma ParseAmountDropsSymbolsAndSeparators()
    ensures ParseAmount(Some("$1,234.56")) == Some(1234.56)
  {
    CleanedDollarExample();
    SplitDollarExample();
    ExampleDigitValues();
  }

  /** A minus sign is kept. */
  lemma ParseAmountKeepsSign()
    ensures ParseAmount(Some("-86.50")) == Some(-86.5)
  {
    CleanedNegativeExample();
    SplitNegativeExample();
    ExampleDigitValues();
  }

  /** Text without digits is rejected. */
  lemma ParseAmountRejectsText()
    ensures ParseAmount(Some("abc")) == None
    ensures ParseAmount(Some("N/A")) == None
  {
    assert KeepAmountChars("abc") == "";
    assert KeepAmountChars("N/A") == "";
  }

  /** `parseDate(value)`: null for an absent or empty cell, otherwise whatever
      `new Date(value)` gives (None standing for an invalid date). */
  function ParseDate(value: Option<string>, parseDate: string -> Option<int>): (r: Option<int>)
    ensures !Truthy(value) ==> r.None?
    ensures Truthy(value) ==> r == parseDate(value.value)
  {
    if !Truthy(value) then None else parseDate(value.value)
  }

  // ---------------------------------------------------------------------------
  // Row normalisation

  /** The optional `bankName` and `accountName` of the request. */
  datatype ImportContext = ImportContext(bankName: Option<string>, accountName: Option<string>)

  /** `accountName || bankName || "Imported Account"` */
  function AccountLabel(ctx: ImportContext): (r: string)
    ensures r != ""
    ensures Truthy(ctx.accountName) ==> r == ctx.accountName.value
    ensures !Truthy(ctx.accountName) && Truthy(ctx.bankName) ==> r == ctx.bankName.value
    ensures !Truthy(ctx.accountName) && !Truthy(ctx.bankName) ==> r == "Imported Account"
  {
    Or(ctx.accountName, Or(ctx.bankName, "Imported Account"))
  }

  /** A transaction built from a row, before its account id is known. */
  datatype Draft = Draft(
    date: int,
    description: string,
    merchant: string,
    amount: real,
    txnType: string,
    category: string,
    accountName: string,
    statement: string,
    confidence: int)

  /** `row[targetToSource[field]]` for a field known to have a source. */
  function RequiredCell(row: Row, tts: TargetToSource, field: string): Option<string>
    requires SourceOf(tts, field).Some?
  {
    Lookup(row, tts[field])
  }

  /** `targetToSource[field] ? row[targetToSource[field]]?.trim() : null` */
  function OptionalCell(row: Row, tts: TargetToSource, field: string): (r: Option<string>)
    ensures r.Some? <==> SourceOf(tts, field).Some? && Lookup(row, tts[field]).Some?
    ensures r.Some? ==> r.value == Trim(Lookup(row, tts[field]).value)
    ensures r.Some? ==> (r.value == "" <==> AllSpace(Lookup(row, tts[field]).value))
  {
    match SourceOf(tts, field)
    case None => None
    case Some(column) =>
      match Lookup(row, column)
      case None => None
      case Some(v) => Some(Trim(v))
  }

  /** `row[targetToSource.description]?.trim()` */
  function TrimmedDescription(row: Row, tts: TargetToSource): (r: string)
    requires SourceOf(tts, "description").Some?
    ensures r == [] || (!IsSpace(r[0]) && !IsSpace(r[|r| - 1]))
    ensures RequiredCell(row, tts, "description").None? ==> r == ""
    ensures RequiredCell(row, tts, "description").Some? ==> r == Trim(RequiredCell(row, tts, "description").value)
  {
    match RequiredCell(row, tts, "description")
    case None => ""
    case Some(v) => Trim(v)
  }

  /** The record a surviving row contributes, its defaults filled in. */
  function BuildDraft(row: Row, tts: TargetToSource, ctx: ImportContext, date: int, amount: real, description: string): (d: Draft)
    requires description != ""
    ensures d.date == date && d.amount == amount && d.description == description
    ensures d.merchant != "" && d.category != "" && d.txnType != "" && d.accountName != "" && d.statement != ""
    ensures d.confidence == 100
  {
    var merchant := OptionalCell(row, tts, "merchant");
    var category := OptionalCell(row, tts, "category");
    var account := OptionalCell(row, tts, "account");
    var txnType := OptionalCell(row, tts, "type");
    Draft(
      date := date,
      description := description,
      merchant := Or(merchant, description),
      amount := amount,
      txnType := Or(txnType, if amount < 0.0 then "debit" else "credit"),
      category := Or(category, "Uncategorized"),
      accountName := Or(account, AccountLabel(ctx)),
      statement := Or(ctx.bankName, "Imported"),
      confidence := 100)
  }

  /** The body of the row loop: None when the row is skipped, otherwise the
      record it contributes. */
  function NormalizeRow(row: Row, tts: TargetToSource, ctx: ImportContext, parseDate: string -> Option<int>): (r: Option<Draft>)
    requires Validated(tts)
    ensures r.Some? <==>
              && ParseDate(RequiredCell(row, tts, "date"), parseDate).Some?
              && ParseAmount(RequiredCell(row, tts, "amount")).Some?
              && TrimmedDescription(row, tts) != ""
    ensures r.Some? ==>
              && r.value.date == ParseDate(RequiredCell(row, tts, "date"), parseDate).value
              && r.value.amount == ParseAmount(RequiredCell(row, tts, "amount")).value
              && r.value.description == TrimmedDescription(row, tts)
              && r.value.merchant != "" && r.value.category != "" && r.value.txnType != ""
              && r.value.accountName != "" && r.value.statement != ""
              && r.value.confidence == 100
  {
    var date := ParseDate(RequiredCell(row, tts, "date"), parseDate);
    var amount := ParseAmount(RequiredCell(row, tts, "amount"));
    var description := TrimmedDescription(row, tts);
    if date.None? || amount.None? || description == "" then None
    else Some(BuildDraft(row, tts, ctx, date.value, amount.value, description))
  }

  /** The defaults each surviving row receives when its optional columns are
      unmapped or blank. */
  lemma NormalizeRowDefaults(row: Row, tts: TargetToSource, ctx: ImportContext, parseDate: string -> Option<int>)
    requires Validated(tts)
    requires NormalizeRow(row, tts, ctx, parseDate).Some?
    ensures var d := NormalizeRow(row, tts, ctx, parseDate).value;
            && (!Truthy(OptionalCell(row, tts, "merchant")) ==> d.merchant == d.description)
            && (Truthy(OptionalCell(row, tts, "merchant")) ==> d.merchant == OptionalCell(row, tts, "merchant").value)
            && (!Truthy(OptionalCell(row, tts, "category")) ==> d.category == "Uncategorized")
            && (Truthy(OptionalCell(row, tts, "category")) ==> d.category == OptionalCell(row, tts, "category").value)
            && (Truthy(OptionalCell(row, tts, "type")) ==> d.txnType == OptionalCell(row, tts, "type").value)
            && (!Truthy(OptionalCell(row, tts, "type")) ==> (d.txnType == "debit" <==> d.amount < 0.0))
            && (!Truthy(OptionalCell(row, tts, "type")) ==> (d.txnType == "credit" <==> d.amount >= 0.0))
            && (Truthy(OptionalCell(row, tts, "account")) ==> d.accountName == OptionalCell(row, tts, "account").value)
            && (!Truthy(OptionalCell(row, tts, "account")) ==> d.accountName == AccountLabel(ctx))
            && (Truthy(ctx.bankName) ==> d.statement == ctx.bankName.value)
            && (!Truthy(ctx.bankName) ==> d.statement == "Imported")
  {
  }

  function OptionToSeq<T>(o: Option<T>): seq<T> {
    if o.Some? then [o.value] else []
  }

  /** The records the loop pushes, in row order. */
  function Survivors(rows: seq<Row>, tts: TargetToSource, ctx: ImportContext, parseDate: string -> Option<int>): (r: seq<Draft>)
    requires Validated(tts)
    ensures |r| <= |rows|
  {
    if rows == [] then []
    else OptionToSeq(NormalizeRow(rows[0], tts, ctx, parseDate)) + Survivors(rows[1..], tts, ctx, parseDate)
  }

  /** Rows are judged one at a time: the survivors of a concatenation are the
      survivors of each part, in order. */
  lemma {:induction false} SurvivorsAppend(a: seq<Row>, b: seq<Row>, tts: TargetToSource, ctx: ImportContext, parseDate: string -> Option<int>)
    requires Validated(tts)
    ensures Survivors(a + b, tts, ctx, parseDate) == Survivors(a, tts, ctx, parseDate) + Survivors(b, tts, ctx, parseDate)
  {
    if a == [] {
      assert a + b == b;
    } else {
      assert (a + b)[0] == a[0] && (a + b)[1..] == a[1..] + b;
      SurvivorsAppend(a[1..], b, tts, ctx, parseDate);
    }
  }

  lemma SurvivorsOfOne(row: Row, tts: TargetToSource, ctx: ImportContext, parseDate: string -> Option<int>)
    requires Validated(tts)
    ensures Survivors([row], tts, ctx, parseDate) == OptionToSeq(NormalizeRow(row, tts, ctx, parseDate))
  {
    assert [row][1..] == [];
  }

  // ---------------------------------------------------------------------------
  // The outcome of POST

  datatype ImportError = RowsAndMappingRequired | MissingRequiredMappings(fields: seq<string>) | NoValidRows

  /** `parts.join(separator)` */
  function Join(parts: seq<string>, separator: string): string {
    if parts == [] then "" else if |parts| == 1 then parts[0] else parts[0] + separator + Join(parts[1..], separator)
  }

  /** The `error` text of each 400 response. */
  function ErrorMessage(e: ImportError): (r: string)
    ensures e.RowsAndMappingRequired? <==> r == "rows and mapping are required"
    ensures e.MissingRequiredMappings? <==> StartsWith(r, "Missing required mappings: ")
    ensures e.NoValidRows? <==> r == "No valid rows after applying the mapping."
  {
    // The three messages already differ in their first character.
    var prefix := "Missing required mappings: ";
    assert prefix[0] == 'M';
    match e
    case RowsAndMappingRequired =>
      var r := "rows and mapping are required";
      assert r[0] == 'r' && |prefix| <= |r|;
      assert r[..|prefix|][0] == r[0];
      r
    case MissingRequiredMappings(fields) =>
      var r := prefix + Join(fields, ", ");
      assert r[..|prefix|] == prefix && r[0] == 'M';
      r
    case NoValidRows =>
      var r := "No valid rows after applying the mapping.";
      assert r[0] == 'N' && |prefix| <= |r|;
      assert r[..|prefix|][0] == r[0];
      r
  }

  /** The message that names the unmapped fields lists them in order, comma-separated. */
  lemma MissingMappingsMessage()
    ensures ErrorMessage(MissingRequiredMappings(["description"])) == "Missing required mappings: description"
    ensures ErrorMessage(MissingRequiredMappings(["date", "amount"])) == "Missing required mappings: date, amount"
  {
    var fields := ["date", "amount"];
    assert fields[1..] == ["amount"];
    assert Join(fields, ", ") == "date" + ", " + "amount";
  }

  /** What POST decides before touching the database: an error, or the
      records to write (never empty). */
  function PlanImport(rows: Option<seq<Row>>, mapping: Option<ColumnMapping>, ctx: ImportContext, parseDate: string -> Option<int>): (r: Result<seq<Draft>, ImportError>)
    ensures r == Failure(RowsAndMappingRequired) <==> rows.None? || rows.value == [] || mapping.None?
    ensures r.Failure? && r.error.MissingRequiredMappings? ==> r.error.fields != []
    ensures r.Success? ==> r.value != [] && |r.value| <= |rows.value|
  {
    if rows.None? || |rows.value| == 0 || mapping.None? then Failure(RowsAndMappingRequired)
    else
      var tts := BuildTargetToSource(mapping.value);
      var missing := MissingRequired(tts);
      if missing != [] then Failure(MissingRequiredMappings(missing))
      else
        var drafts := Survivors(rows.value, tts, ctx, parseDate);
        if drafts == [] then Failure(NoValidRows) else Success(drafts)
  }

  /** When a required field has no first-wins source, the import fails naming
      exactly the unmapped required fields, in order, whatever the rows hold. */
  lemma MissingMappingsNameExactlyTheUnmappedFields(
    rows: seq<Row>, mapping: ColumnMapping, ctx: ImportContext, parseDate: string -> Option<int>)
    requires rows != []
    ensures var missing := (if FirstSource(mapping, "date").None? then ["date"] else [])
                         + (if FirstSource(mapping, "amount").None? then ["amount"] else [])
                         + (if FirstSource(mapping, "description").None? then ["description"] else []);
            missing != [] <==> PlanImport(Some(rows), Some(mapping), ctx, parseDate) == Failure(MissingRequiredMappings(missing))
  {
    TargetToSourceIsFirstWins(mapping, "date");
    TargetToSourceIsFirstWins(mapping, "amount");
    TargetToSourceIsFirstWins(mapping, "description");
  }

  /** The import succeeds exactly when the request is complete, the required
      fields are mapped and at least one row survives; it then reports the
      survivors in row order. */
  lemma ImportSucceedsIffSomeRowSurvives(
    rows: seq<Row>, mapping: ColumnMapping, ctx: ImportContext, parseDate: string -> Option<int>)
    requires rows != []
    requires Validated(BuildTargetToSource(mapping))
    ensures var drafts := Survivors(rows, BuildTargetToSource(mapping), ctx, parseDate);
            && (drafts == [] <==> PlanImport(Some(rows), Some(mapping), ctx, parseDate) == Failure(NoValidRows))
            && (drafts != [] <==> PlanImport(Some(rows), Some(mapping), ctx, parseDate) == Success(drafts))
  {
  }
}

/**
 * The imperative half of POST: the database the route writes to (accounts and
 * transactions, standing for the Prisma client), the per-call account cache
 * and the row loop.
 */
module ImportWrite {
  import opened Wrappers
  import opened Domain
  import opened ImportRoute

  /** An account row; its id is its position in the table. */
  datatype Account = Account(id: nat, name: string, institution: Option<string>)

  /** A transaction row as `createMany` inserts it. */
  datatype StoredTransaction = StoredTransaction(
    date: int,
    description: string,
    merchant: string,
    amount: real,
    txnType: string,
    category: string,
    accountId: nat,
    statement: string,
    confidence: int)

  function Stored(d: Draft, accountId: nat): StoredTransaction {
    StoredTransaction(d.date, d.description, d.merchant, d.amount, d.txnType, d.category, accountId, d.statement, d.confidence)
  }

  /** The `where: { name, institution: bankName ?? undefined }` filter: an
      undefined institution places no constraint. */
  predicate AccountMatches(a: Account, name: string, institution: Option<string>) {
    a.name == name && (institution.None? || a.institution == institution)
  }

  /** The account names the given records resolve to. */
  function AccountNames(drafts: seq<Draft>): set<string> {
    set d | d in drafts :: d.accountName
  }

  /** The import's result with the records replaced by their count. */
  function Reported(plan: Result<seq<Draft>, ImportError>): Result<nat, ImportError> {
    match plan
    case Success(drafts) => Success(|drafts|)
    case Failure(e) => Failure(e)
  }

  /** The survivors of one more row are those before it plus that row's draft, if any. */
  lemma SurvivorsStep(all: seq<Row>, i: nat, tts: TargetToSource, ctx: ImportContext, parseDate: string -> Option<int>)
    requires Validated(tts) && i < |all|
    ensures var d := NormalizeRow(all[i], tts, ctx, parseDate);
            Survivors(all[..i + 1], tts, ctx, parseDate)
              == Survivors(all[..i], tts, ctx, parseDate) + (if d.Some? then [d.value] else [])
  {
    assert all[..i + 1] == all[..i] + [all[i]];
    SurvivorsAppend(all[..i], [all[i]], tts, ctx, parseDate);
    SurvivorsOfOne(all[i], tts, ctx, parseDate);
  }

  /** Every cached name points at an account that the lookup for it accepts. */
  ghost predicate CacheSound(accounts: seq<Account>, cache: map<string, nat>, institution: Option<string>) {
    forall n :: n in cache ==> cache[n] < |accounts| && AccountMatches(accounts[cache[n]], n, institution)
  }

  /** What the row loop keeps true: each record so far is its draft with the
      cached id of its account name; the cache holds only names used so far;
      the accounts created so far are new, one per cached name, and no more
      numerous than the records. */
  ghost predicate LoopInvariant(initial: seq<Account>, accounts: seq<Account>, cache: map<string, nat>,
                                records: seq<StoredTransaction>, drafts: seq<Draft>, institution: Option<string>)
  {
    && CacheSound(accounts, cache, institution)
    && |records| == |drafts|
    && (forall k :: 0 <= k < |records| ==>
          && records[k] == Stored(drafts[k], records[k].accountId)
          && drafts[k].accountName in cache
          && cache[drafts[k].accountName] == records[k].accountId)
    && (forall n :: n in cache ==> n in AccountNames(drafts))
    && initial <= accounts && |accounts| <= |initial| + |records|
    && (forall a :: |initial| <= a < |accounts| ==> accounts[a].name in cache && cache[accounts[a].name] == a)
    && (forall a, j :: |initial| <= a < |accounts| && 0 <= j < |initial| ==>
          !AccountMatches(initial[j], accounts[a].name, institution))
  }

  /** What the loop delivers once every row is done. */
  ghost predicate RowsResolved(initial: seq<Account>, accounts: seq<Account>, records: seq<StoredTransaction>,
                               drafts: seq<Draft>, institution: Option<string>)
  {
    && |records| == |drafts|
    && (forall k :: 0 <= k < |records| ==>
          && records[k] == Stored(drafts[k], records[k].accountId)
          && records[k].accountId < |accounts|
          && AccountMatches(accounts[records[k].accountId], drafts[k].accountName, institution))
    && (forall k, l :: 0 <= k < |records| && 0 <= l < |records| && drafts[k].accountName == drafts[l].accountName ==>
          records[k].accountId == records[l].accountId)
    && (forall a :: |initial| <= a < |accounts| ==> accounts[a].name in AccountNames(drafts))
    && |initial| <= |accounts| <= |initial| + |records| && initial <= accounts
    && (forall a, b :: |initial| <= a < b < |accounts| ==> accounts[a].name != accounts[b].name)
    && (forall a, j :: |initial| <= a < |accounts| && 0 <= j < |initial| ==>
          !AccountMatches(initial[j], accounts[a].name, institution))
  }

  lemma LoopInvariantAtEnd(initial: seq<Account>, accounts: seq<Account>, cache: map<string, nat>,
                           records: seq<StoredTransaction>, drafts: seq<Draft>, institution: Option<string>)
    requires LoopInvariant(initial, accounts, cache, records, drafts, institution)
    ensures RowsResolved(initial, accounts, records, drafts, institution)
  {
  }

  class Database {
    var accounts: seq<Account>
    var transactions: seq<StoredTransaction>

    ghost predicate Valid()
      reads this
    {
      forall i :: 0 <= i < |accounts| ==> accounts[i].id == i
    }

    constructor ()
      ensures Valid() && accounts == [] && transactions == []
    {
      accounts := [];
      transactions := [];
    }

    /** `prisma.account.findFirst`: the first matching account in table order. */
    method FindFirstAccount(name: string, institution: Option<string>) returns (found: Option<Account>)
      ensures found.None? <==> forall i :: 0 <= i < |accounts| ==> !AccountMatches(accounts[i], name, institution)
      ensures found.Some? ==> exists i :: 0 <= i < |accounts| && accounts[i] == found.value &&
                                          AccountMatches(accounts[i], name, institution) &&
                                          forall j :: 0 <= j < i ==> !AccountMatches(accounts[j], name, institution)
    {
      var i := 0;
      while i < |accounts|
        invariant 0 <= i <= |accounts|
        invariant forall j :: 0 <= j < i ==> !AccountMatches(accounts[j], name, institution)
      {
        if AccountMatches(accounts[i], name, institution) {
          return Some(accounts[i]);
        }
        i := i + 1;
      }
      return None;
    }

    /** `prisma.account.create`: appends a new account. */
    method CreateAccount(name: string, institution: Option<string>) returns (account: Account)
      requires Valid()
      modifies this
      ensures Valid()
      ensures account == Account(|old(accounts)|, name, institution)
      ensures accounts == old(accounts) + [account] && transactions == old(transactions)
    {
      account := Account(|accounts|, name, institution);
      accounts := accounts + [account];
    }

    /** `getAccountId(name)`: the cached id when the name was seen before in this
        call; otherwise the first matching account, created when there is none. */
    method GetAccountId(name: string, bankName: Option<string>, cache: map<string, nat>) returns (id: nat, cache': map<string, nat>)
      requires Valid() && CacheSound(accounts, cache, bankName)
      modifies this
      ensures Valid() && CacheSound(accounts, cache', bankName)
      ensures cache' == cache[name := id] && transactions == old(transactions)
      ensures id < |accounts| && AccountMatches(accounts[id], name, bankName)
      ensures name in cache ==> id == cache[name] && accounts == old(accounts)
      ensures old(accounts) <= accounts && |accounts| <= |old(accounts)| + 1
      ensures name !in cache ==>
                || accounts == old(accounts)
                || (&& accounts == old(accounts) + [Account(|old(accounts)|, name, bankName)]
                    && forall i :: 0 <= i < |old(accounts)| ==> !AccountMatches(old(accounts)[i], name, bankName))
    {
      if name in cache {
        return cache[name], cache;
      }
      var existing := FindFirstAccount(name, bankName);
      var account: Account;
      if existing.Some? {
        account := existing.value;
      } else {
        account := CreateAccount(name, bankName);
      }
      id := account.id;
      cache' := cache[name := id];
    }

    /** One surviving row: resolve its account and push its record. */
    method PushRecord(ghost initial: seq<Account>, d: Draft, bankName: Option<string>, cache: map<string, nat>,
                      records: seq<StoredTransaction>, ghost drafts: seq<Draft>)
      returns (cache': map<string, nat>, records': seq<StoredTransaction>)
      requires Valid() && LoopInvariant(initial, accounts, cache, records, drafts, bankName)
      modifies this
      ensures Valid() && LoopInvariant(initial, accounts, cache', records', drafts + [d], bankName)
      ensures transactions == old(transactions)
    {
      var id;
      id, cache' := GetAccountId(d.accountName, bankName, cache);
      records' := records + [Stored(d, id)];
      assert AccountNames(drafts + [d]) == AccountNames(drafts) + {d.accountName};
    }

    /** One pass of the row loop: normalise row `i` and, when it survives,
        push its record. */
    method ResolveRow(ghost initial: seq<Account>, all: seq<Row>, i: nat, tts: TargetToSource, ctx: ImportContext,
                      parseDate: string -> Option<int>, cache: map<string, nat>, records: seq<StoredTransaction>,
                      ghost drafts: seq<Draft>)
      returns (cache': map<string, nat>, records': seq<StoredTransaction>, ghost drafts': seq<Draft>)
      requires Validated(tts) && i < |all| && drafts == Survivors(all[..i], tts, ctx, parseDate)
      requires Valid() && LoopInvariant(initial, accounts, cache, records, drafts, ctx.bankName)
      modifies this
      ensures drafts' == Survivors(all[..i + 1], tts, ctx, parseDate)
      ensures Valid() && LoopInvariant(initial, accounts, cache', records', drafts', ctx.bankName)
      ensures transactions == old(transactions)
    {
      var draft := NormalizeRow(all[i], tts, ctx, parseDate);
      SurvivorsStep(all, i, tts, ctx, parseDate);
      if draft.Some? {
        cache', records' := PushRecord(initial, draft.value, ctx.bankName, cache, records, drafts);
        drafts' := drafts + [draft.value];
      } else {
        cache', records', drafts' := cache, records, drafts;
      }
    }

    /** The `for (const row of rows)` loop: normalises each row and resolves
        the account of each survivor through a cache local to this call. */
    method ResolveRows(all: seq<Row>, tts: TargetToSource, ctx: ImportContext, parseDate: string -> Option<int>)
      returns (records: seq<StoredTransaction>)
      requires Valid() && Validated(tts)
      modifies this
      ensures Valid() && transactions == old(transactions)
      ensures RowsResolved(old(accounts), accounts, records, Survivors(all, tts, ctx, parseDate), ctx.bankName)
    {
      var cache: map<string, nat> := map[];
      records := [];
      ghost var drafts: seq<Draft> := [];
      var i := 0;
      while i < |all|
        invariant 0 <= i <= |all|
        invariant Valid() && transactions == old(transactions)
        invariant drafts == Survivors(all[..i], tts, ctx, parseDate)
        invariant LoopInvariant(old(accounts), accounts, cache, records, drafts, ctx.bankName)
      {
        cache, records, drafts := ResolveRow(old(accounts), all, i, tts, ctx, parseDate, cache, records, drafts);
        i := i + 1;
      }
      assert all[..|all|] == all;
      LoopInvariantAtEnd(old(accounts), accounts, cache, records, drafts, ctx.bankName);
    }

    /**
     * POST /api/transactions/import. On success exactly one bulk write appends
     * the surviving rows in order, each pointing at an account with its
     * resolved name; an account is created at most once per distinct name and
     * only when no matching account existed. Every error leaves the database
     * untouched.
     */
    method Import(rows: Option<seq<Row>>, mapping: Option<ColumnMapping>, ctx: ImportContext, parseDate: string -> Option<int>)
      returns (r: Result<nat, ImportError>)
      requires Valid()
      modifies this
      ensures Valid()
      ensures r == Reported(PlanImport(rows, mapping, ctx, parseDate))
      ensures r.Failure? ==> accounts == old(accounts) && transactions == old(transactions)
      ensures r.Success? ==>
                var drafts := PlanImport(rows, mapping, ctx, parseDate).value;
                var n := |old(transactions)|;
                && |transactions| == n + |drafts|
                && transactions[..n] == old(transactions)
                && (forall k :: 0 <= k < |drafts| ==>
                      && transactions[n + k] == Stored(drafts[k], transactions[n + k].accountId)
                      && transactions[n + k].accountId < |accounts|
                      && AccountMatches(accounts[transactions[n + k].accountId], drafts[k].accountName, ctx.bankName))
                && (forall k, l :: 0 <= k < |drafts| && 0 <= l < |drafts| && drafts[k].accountName == drafts[l].accountName ==>
                      transactions[n + k].accountId == transactions[n + l].accountId)
                && (forall a :: |old(accounts)| <= a < |accounts| ==> accounts[a].name in AccountNames(drafts))
      ensures |old(accounts)| <= |accounts| && old(accounts) <= accounts
      ensures forall a, b :: |old(accounts)| <= a < b < |accounts| ==> accounts[a].name != accounts[b].name
      ensures forall a, j :: |old(accounts)| <= a < |accounts| && 0 <= j < |old(accounts)| ==>
                !AccountMatches(old(accounts)[j], accounts[a].name, ctx.bankName)
    {
      if rows.None? || |rows.value| == 0 || mapping.None? {
        return Failure(RowsAndMappingRequired);
      }
      var tts := BuildTargetToSource(mapping.value);
      var missing := MissingRequired(tts);
      if |missing| > 0 {
        return Failure(MissingRequiredMappings(missing));
      }
      var records := ResolveRows(rows.value, tts, ctx, parseDate);
      if |records| == 0 {
        assert accounts == old(accounts);
        return Failure(NoValidRows);
      }
      var n := |transactions|;
      transactions := transactions + records;
      assert transactions[n..] == records;
      r := Success(|records|);
    }
  }
}
