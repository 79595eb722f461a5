/**
 * Securics exceptions as values. An exception carries a numeric code; its
 * message comes from the error catalog (the ERRORS table) and an optional
 * extra message. The catalog itself is an input: each entry is either a plain
 * message or a message with a remediation, and a message is a template whose
 * named fields an extra message given as a dictionary fills in.
 */
module Exceptions {
  import opened Wrappers
  import opened Text

  /** The exception classes; ResourceNotFound is a subclass of Error. */
  datatype Kind = PlainException | Error | InternalError | ResourceNotFound

  /** Whether an `except SecuricsError` clause catches this kind. */
  predicate IsErrorFamily(k: Kind)
  {
    k == Error || k == ResourceNotFound
  }

  datatype Piece = Lit(text: string) | Field(name: string)

  /** A catalog message in `str.format` syntax, already split into pieces. */
  type Template = seq<Piece>

  datatype Entry = Plain(text: Template) | Detailed(message: Template, remediation: Option<string>)

  type Catalog = map<int, Entry>

  /** The optional extra message: absent, a string, or a dictionary of template fields. */
  datatype Extra = NoExtra | ExtraText(text: string) | ExtraFields(values: map<string, string>)

  function TemplateOf(e: Entry): Template
  {
    match e
    case Plain(t) => t
    case Detailed(t, _) => t
  }

  /** The template as written, with its fields still in braces. */
  function RawText(t: Template): string
  {
    if |t| == 0 then ""
    else
      (match t[0] case Lit(s) => s case Field(n) => "{" + n + "}") + RawText(t[1..])
  }

  function FieldNames(t: Template): set<string>
  {
    if |t| == 0 then {}
    else (match t[0] case Lit(_) => {} case Field(n) => {n}) + FieldNames(t[1..])
  }

  /** `template.format(**values)`; a field without a value raises KeyError (None). */
  function Format(t: Template, values: map<string, string>): Option<string>
  {
    if |t| == 0 then Some("")
    else
      var head := PieceValue(t[0], values);
      var rest := Format(t[1..], values);
      if head.None? || rest.None? then None else Some(head.value + rest.value)
  }

  function PieceValue(p: Piece, values: map<string, string>): Option<string>
  {
    match p
    case Lit(s) => Some(s)
    case Field(n) => if n in values then Some(values[n]) else None
  }

  /** Formatting succeeds exactly when every field of the template has a value. */
  lemma {:induction false} FormatDefined(t: Template, values: map<string, string>)
    ensures Format(t, values).Some? <==> FieldNames(t) <= values.Keys
  {
    if |t| > 0 {
      FormatDefined(t[1..], values);
    }
  }

  /** A template without fields formats to its own text. */
  lemma {:induction false} FormatWithoutFields(t: Template, values: map<string, string>)
    requires FieldNames(t) == {}
    ensures Format(t, values) == Some(RawText(t))
  {
    if |t| > 0 {
      assert FieldNames(t[1..]) <= FieldNames(t);
      FormatWithoutFields(t[1..], values);
    }
  }

  /** How Python prints the stored extra message when it becomes the whole message. */
  function ExtraAsMessage(extra: Extra): string
  {
    match extra
    case NoExtra => "None"
    case ExtraText(s) => s
    case ExtraFields(_) => ""
  }

  /**
   * The message of a new exception. With `cmd_error`, or for a code missing
   * from the catalog, the extra message is the whole message. Otherwise the
   * catalog message is used as written, followed by ": extra" for a non-empty
   * string, or formatted with a non-empty dictionary (None: KeyError).
   */
  function RenderMessage(code: int, extra: Extra, cmdError: bool, catalog: Catalog): (r: Option<string>)
    ensures (cmdError || code !in catalog) ==> r == Some(ExtraAsMessage(extra))
    ensures !cmdError && code in catalog && extra.ExtraText? && extra.text != "" ==>
              r == Some(RawText(TemplateOf(catalog[code])) + ": " + extra.text)
    ensures !cmdError && code in catalog && (extra.NoExtra? || extra == ExtraText("") || extra == ExtraFields(map[])) ==>
              r == Some(RawText(TemplateOf(catalog[code])))
    ensures r.None? <==> !cmdError && code in catalog && extra.ExtraFields? && extra.values != map[] &&
                         !(FieldNames(TemplateOf(catalog[code])) <= extra.values.Keys)
  {
    if cmdError || code !in catalog then Some(ExtraAsMessage(extra))
    else
      var t := TemplateOf(catalog[code]);
      match extra
      case NoExtra => Some(RawText(t))
      case ExtraText(s) => if s == "" then Some(RawText(t)) else Some(RawText(t) + ": " + s)
      case ExtraFields(m) =>
        if m == map[] then Some(RawText(t))
        else FormatDefined(t, m); Format(t, m)
  }

  /** One raised exception. `ids` is empty for kinds outside the Error family. */
  datatype ErrorRecord = ErrorRecord(
    kind: Kind,
    code: int,
    message: string,
    remediation: Option<string>,
    ids: set<string>,
    dapiErrors: map<string, string>)

  /** What identifies an error among a result's failed items: its code and message. */
  datatype ErrorKey = ErrorKey(code: int, message: string)

  function KeyOf(e: ErrorRecord): ErrorKey
  {
    ErrorKey(e.code, e.message)
  }

  function RemediationOf(code: int, catalog: Catalog): Option<string>
  {
    if code in catalog && catalog[code].Detailed? then catalog[code].remediation else None
  }

  /** The constructor: an exception of `kind` with `code`, or None when rendering raises. */
  function New(kind: Kind, code: int, extra: Extra, cmdError: bool, ids: set<string>, catalog: Catalog): (r: Option<ErrorRecord>)
    ensures r.Some? <==> RenderMessage(code, extra, cmdError, catalog).Some?
    ensures r.Some? ==> r.value.kind == kind && r.value.code == code && r.value.dapiErrors == map[] &&
                        r.value.message == RenderMessage(code, extra, cmdError, catalog).value
    ensures r.Some? ==> r.value.ids == if IsErrorFamily(kind) then ids else {}
  {
    match RenderMessage(code, extra, cmdError, catalog)
    case None => None
    case Some(m) =>
      Some(ErrorRecord(kind, code, m, RemediationOf(code, catalog), if IsErrorFamily(kind) then ids else {}, map[]))
  }

  /** An exception raised with a code and nothing else, as the call sites do. */
  function Simple(kind: Kind, code: int, catalog: Catalog): (e: ErrorRecord)
    ensures New(kind, code, NoExtra, false, {}, catalog) == Some(e)
    ensures e.message == if code in catalog then RawText(TemplateOf(catalog[code])) else "None"
  {
    ErrorRecord(kind, code, RenderMessage(code, NoExtra, false, catalog).value, RemediationOf(code, catalog), {}, map[])
  }

  /** An exception raised with a code and a string extra message. */
  function WithText(kind: Kind, code: int, text: string, catalog: Catalog): (e: ErrorRecord)
    ensures New(kind, code, ExtraText(text), false, {}, catalog) == Some(e)
    ensures code in catalog && text != "" ==> e.message == RawText(TemplateOf(catalog[code])) + ": " + text
  {
    ErrorRecord(kind, code, RenderMessage(code, ExtraText(text), false, catalog).value, RemediationOf(code, catalog), {}, map[])
  }

  /**
   * `str(exc)`: "Error ", the code, " - " and the message; the code and the
   * message can be read back from the text.
   */
  function ToString(e: ErrorRecord): (r: string)
    ensures |r| >= 10 + |e.message|
    ensures r[..6] == "Error " && r[|r| - |e.message| - 3..|r| - |e.message|] == " - "
    ensures r[|r| - |e.message|..] == e.message
    ensures ParseInt(r[6..|r| - |e.message| - 3]) == Some(e.code)
  {
    var d := Decimal(e.code);
    DecimalRoundTrip(e.code);
    var r := "Error " + d + " - " + e.message;
    assert r[6..|r| - |e.message| - 3] == d;
    assert r[|r| - |e.message|..] == e.message;
    r
  }

  /**
   * `self | other`: a copy of `self` whose dapi errors are joined with the
   * other's, and, when both are Errors, whose ids are the union of both sets.
   */
  function Or(self: ErrorRecord, other: ErrorRecord): (r: ErrorRecord)
    ensures KeyOf(r) == KeyOf(self) && r.kind == self.kind && r.remediation == self.remediation
    ensures r.dapiErrors.Keys == self.dapiErrors.Keys + other.dapiErrors.Keys
    ensures forall k :: k in self.dapiErrors && k !in other.dapiErrors ==> r.dapiErrors[k] == self.dapiErrors[k]
    ensures forall k :: k in other.dapiErrors ==> r.dapiErrors[k] == other.dapiErrors[k]
    ensures r.ids == if IsErrorFamily(self.kind) && IsErrorFamily(other.kind) then self.ids + other.ids else self.ids
  {
    self.(dapiErrors := self.dapiErrors + other.dapiErrors,
          ids := if IsErrorFamily(self.kind) && IsErrorFamily(other.kind) then self.ids + other.ids else self.ids)
  }

  /** A code outside the catalog, or `cmd_error`, makes the extra message the whole message. */
  lemma RenderExtraOnlyExamples(catalog: Catalog)
    requires 9999 !in catalog && 999 in catalog
    ensures RenderMessage(9999, ExtraText("External exception"), false, catalog) == Some("External exception")
    ensures RenderMessage(999, ExtraText("Code found with cmd_error"), true, catalog) == Some("Code found with cmd_error")
  {
  }

  /** Catalog messages of both entry shapes, used as written. */
  lemma RenderCatalogExamples(catalog: Catalog)
    requires 999 in catalog && catalog[999] == Plain([Lit("Incompatible version of Python")])
    requires 4018 in catalog && catalog[4018] == Detailed([Lit("Level cannot be a negative number")], None)
    requires 4019 in catalog && catalog[4019].Detailed? && catalog[4019].message == [Lit("Invalid resource specified")]
    ensures RenderMessage(999, NoExtra, false, catalog) == Some("Incompatible version of Python")
    ensures RenderMessage(4018, NoExtra, false, catalog) == Some("Level cannot be a negative number")
    ensures RenderMessage(4019, NoExtra, false, catalog) == Some("Invalid resource specified")
  {
    RawTextSingle("Incompatible version of Python");
    RawTextSingle("Level cannot be a negative number");
    RawTextSingle("Invalid resource specified");
  }

  /** A string extra message follows the catalog message after a colon. */
  lemma RenderTextExample(catalog: Catalog)
    requires 4018 in catalog && catalog[4018] == Detailed([Lit("Level cannot be a negative number")], None)
    ensures RenderMessage(4018, ExtraText("extra message"), false, catalog) == Some("Level cannot be a negative number: extra message")
  {
    RawTextSingle("Level cannot be a negative number");
    assert "Level cannot be a negative number" + ": " + "extra message" == "Level cannot be a negative number: extra message";
  }

  /** A dictionary extra message fills in a two-field template, as code 1017's message is. */
  lemma RenderFieldsExample(catalog: Catalog, code: int, a: string, x: string, b: string, y: string, c: string, m: map<string, string>)
    requires code in catalog && TemplateOf(catalog[code]) == [Lit(a), Field(x), Lit(b), Field(y), Lit(c)]
    requires x in m && y in m
    ensures RenderMessage(code, ExtraFields(m), false, catalog) == Some(a + m[x] + b + m[y] + c)
  {
    var t := [Lit(a), Field(x), Lit(b), Field(y), Lit(c)];
    assert t[4..] == [Lit(c)] && t[4..][1..] == [];
    FormatStep(t[4..], m, c, "", c);
    assert t[3..][1..] == t[4..];
    FormatStep(t[3..], m, m[y], c, m[y] + c);
    assert t[2..][1..] == t[3..];
    FormatStep(t[2..], m, b, m[y] + c, b + m[y] + c);
    assert t[1..][1..] == t[2..];
    FormatStep(t[1..], m, m[x], b + m[y] + c, m[x] + b + m[y] + c);
    FormatStep(t, m, a, m[x] + b + m[y] + c, a + m[x] + b + m[y] + c);
  }

  /** The 1017 row of the test table. */
  lemma RenderNodeExample(catalog: Catalog)
    requires 1017 in catalog && TemplateOf(catalog[1017]) ==
      [Lit("Some Securics daemons are not ready yet in node \""), Field("node_name"), Lit("\" ("), Field("not_ready_daemons"), Lit(")")]
    ensures RenderMessage(1017, ExtraFields(map["node_name" := "Node Name", "not_ready_daemons" := "not ready daemons"]), false, catalog)
            == Some("Some Securics daemons are not ready yet in node \"Node Name\" (not ready daemons)")
  {
    var m := map["node_name" := "Node Name", "not_ready_daemons" := "not ready daemons"];
    assert m["node_name"] == "Node Name" && m["not_ready_daemons"] == "not ready daemons";
    assert "Some Securics daemons are not ready yet in node \"" + "Node Name" + "\" (" + "not ready daemons" + ")"
        == "Some Securics daemons are not ready yet in node \"Node Name\" (not ready daemons)";
    RenderFieldsExample(catalog, 1017, "Some Securics daemons are not ready yet in node \"", "node_name", "\" (", "not_ready_daemons", ")", m);
  }

  lemma FormatStep(t: Template, m: map<string, string>, head: string, rest: string, whole: string)
    requires |t| > 0 && PieceValue(t[0], m) == Some(head) && Format(t[1..], m) == Some(rest)
    requires whole == head + rest
    ensures Format(t, m) == Some(whole)
  {
  }

  lemma RawTextSingle(s: string)
    ensures RawText([Lit(s)]) == s
  {
    assert [Lit(s)][1..] == [];
  }

  /** `str(exc)` for a code outside the catalog. */
  lemma ToStringUnknownExample(catalog: Catalog)
    requires 9999 !in catalog
    ensures ToString(WithText(PlainException, 9999, "External exception", catalog)) == "Error 9999 - External exception"
  {
    DigitsExamples();
  }

  /** `str(exc)` for a code with a plain catalog message. */
  lemma ToStringPlainExample(catalog: Catalog)
    requires 999 in catalog && catalog[999] == Plain([Lit("Incompatible version of Python")])
    ensures ToString(Simple(PlainException, 999, catalog)) == "Error 999 - Incompatible version of Python"
  {
    DigitsExamples();
    ToStringPlain(PlainException, 999, "Incompatible version of Python", catalog);
    PlainExampleText();
  }

  lemma PlainExampleText()
    ensures "Error " + "999" + " - " + "Incompatible version of Python" == "Error 999 - Incompatible version of Python"
  {
  }

  /** `str(exc)` of an exception whose catalog entry is one plain text. */
  lemma ToStringPlain(kind: Kind, code: int, text: string, catalog: Catalog)
    requires code in catalog && catalog[code] == Plain([Lit(text)])
    ensures ToString(Simple(kind, code, catalog)) == "Error " + Decimal(code) + " - " + text
  {
    RawTextSingle(text);
  }

  lemma DigitsExamples()
    ensures Decimal(999) == "999" && Decimal(9999) == "9999"
  {
    assert Digits(9) == "9";
    assert Digits(99) == Digits(9) + [DigitChar(9)];
    assert Digits(999) == Digits(99) + [DigitChar(9)];
    assert Digits(9999) == Digits(999) + [DigitChar(9)];
  }
}
