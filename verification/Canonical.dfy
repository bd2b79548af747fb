/**
 The canonical chat request: parsed out of a client's body and printed back
 (pkg/types/canonical.go).  JSON objects and texts are opaque; a number is its
 value and whether it is written as a plain integer.
 */
module Canonical {
  import opened Prelude

  type Name = nat
  const NO_NAME: Name := 0   // ""

  datatype Field =
    | Model | Messages | Tools | ToolChoice | ResponseFormat | Temperature | TopP | MaxTokens | Stop | Seed | N | Stream
    | Unmodelled(name: nat)

  const KNOWN_FIELDS: seq<Field> :=
    [Model, Messages, Tools, ToolChoice, ResponseFormat, Temperature, TopP, MaxTokens, Stop, Seed, N, Stream]

  datatype JSON =
    | Null
    | Bool(b: bool)
    | Number(value: real, plain: bool)
    | Text(text: Name)
    | List(items: seq<JSON>)
    | Object(id: nat)

  type Fields = map<Field, JSON>

  datatype Body = NotAnObject | NullBody | Body(fields: Fields)

  /** nil and empty slices differ; a missing raw value is None. */
  datatype Request = Request(
    model: Name, messages: Option<seq<JSON>>, tools: Option<seq<JSON>>,
    toolChoice: Option<JSON>, responseFormat: Option<JSON>,
    temperature: Option<real>, topP: Option<real>, maxTokens: Option<int>,
    stop: Option<seq<Name>>, seed: Option<int>, n: Option<int>, stream: bool,
    extra: Fields)

  datatype Error = InvalidJSON | Invalid(field: Field) | MissingModel

  datatype Result<+T> = Ok(value: T) | Err(error: Error) {
    predicate IsFailure() { Err? }

    function PropagateFailure<U>(): Result<U>
      requires Err?
    {
      Err(error)
    }

    function Extract(): T
      requires Ok?
    {
      value
    }
  }

  // ---------------------------------------------------------------- json.Unmarshal into one field

  function ReadName(v: JSON): Option<Name> {
    match v
    case Null => Some(NO_NAME)
    case Text(t) => Some(t)
    case _ => None
  }

  function ReadList(v: JSON): Option<Option<seq<JSON>>> {
    match v
    case Null => Some(None)
    case List(items) => Some(Some(items))
    case _ => None
  }

  function ReadReal(v: JSON): Option<Option<real>> {
    match v
    case Null => Some(None)
    case Number(x, _) => Some(Some(x))
    case _ => None
  }

  const MIN_INT64 := -0x8000_0000_0000_0000
  const MAX_INT64 := 0x7fff_ffff_ffff_ffff

  /** Only a plain integer literal in range reads as an int. */
  function ReadInt(v: JSON): Option<Option<int>> {
    match v
    case Null => Some(None)
    case Number(x, plain) =>
      if plain && x == x.Floor as real && MIN_INT64 <= x.Floor <= MAX_INT64 then Some(Some(x.Floor)) else None
    case _ => None
  }

  function ReadBool(v: JSON): Option<bool> {
    match v
    case Null => Some(false)
    case Bool(b) => Some(b)
    case _ => None
  }

  /** A null among strings reads as the empty one. */
  function ReadNames(items: seq<JSON>): Option<seq<Name>> {
    if items == [] then Some([])
    else
      var first, rest := ReadName(items[0]), ReadNames(items[1..]);
      if first.Some? && rest.Some? then Some([first.value] + rest.value) else None
  }

  /** An array of strings, or else one string. */
  function ReadStop(v: JSON): Option<Option<seq<Name>>> {
    match v
    case Null => Some(None)
    case List(items) => var names := ReadNames(items); if names.Some? then Some(names) else None
    case Text(t) => Some(Some([t]))
    case _ => None
  }

  // ---------------------------------------------------------------- what parsing means

  /** The value a field of the body has, Null standing for an absent one. */
  function At(raw: Fields, f: Field): JSON {
    if f in raw then raw[f] else Null
  }

  function Kept(raw: Fields, f: Field): Option<JSON> {
    if f in raw then Some(raw[f]) else None
  }

  predicate Readable(raw: Fields, f: Field) {
    var v := At(raw, f);
    match f
    case Model => ReadName(v).Some?
    case Messages => ReadList(v).Some?
    case Tools => ReadList(v).Some?
    case Temperature => ReadReal(v).Some?
    case TopP => ReadReal(v).Some?
    case MaxTokens => ReadInt(v).Some?
    case Stop => ReadStop(v).Some?
    case Seed => ReadInt(v).Some?
    case N => ReadInt(v).Some?
    case Stream => ReadBool(v).Some?
    case _ => true
  }

  ghost predicate Accepted(raw: Fields) {
    (forall f: Field :: Readable(raw, f)) && ReadName(At(raw, Model)) != Some(NO_NAME)
  }

  ghost function Extra(raw: Fields): Fields {
    map f | f in raw && f.Unmodelled? :: raw[f]
  }

  ghost function Parsed(raw: Fields): Request
    requires Accepted(raw)
  {
    assert Readable(raw, Model) && Readable(raw, Messages) && Readable(raw, Tools) && Readable(raw, Temperature)
           && Readable(raw, TopP) && Readable(raw, MaxTokens) && Readable(raw, Stop) && Readable(raw, Seed)
           && Readable(raw, N) && Readable(raw, Stream);
    Request(
      ReadName(At(raw, Model)).value, ReadList(At(raw, Messages)).value, ReadList(At(raw, Tools)).value,
      Kept(raw, ToolChoice), Kept(raw, ResponseFormat),
      ReadReal(At(raw, Temperature)).value, ReadReal(At(raw, TopP)).value, ReadInt(At(raw, MaxTokens)).value,
      ReadStop(At(raw, Stop)).value, ReadInt(At(raw, Seed)).value, ReadInt(At(raw, N)).value, ReadBool(At(raw, Stream)).value,
      Extra(raw))
  }

  // ---------------------------------------------------------------- the parser

  /** The order in which the fields are read. */
  function Turn(f: Field): nat {
    match f
    case Model => 0
    case Messages => 1
    case Tools => 2
    case Temperature => 3
    case TopP => 4
    case MaxTokens => 5
    case Stop => 6
    case Seed => 7
    case N => 8
    case Stream => 9
    case _ => 10
  }

  /** Of the fields read in these turns this one is the first that cannot be. */
  ghost predicate FirstUnreadable(raw: Fields, f: Field, from: nat, to: nat) {
    && from <= Turn(f) <= to && !Readable(raw, f)
    && forall g: Field :: from <= Turn(g) < Turn(f) ==> Readable(raw, g)
  }

  function Need<T>(v: Option<T>, f: Field): Result<T> {
    if v.Some? then Ok(v.value) else Err(Invalid(f))
  }

  /** messages and tools. */
  method ParseLists(raw: Fields, start: Request) returns (r: Result<Request>)
    requires start.messages.None? && start.tools.None?
    ensures r.Ok? <==> Readable(raw, Messages) && Readable(raw, Tools)
    ensures r.Ok? ==> r.value == start.(messages := ReadList(At(raw, Messages)).value, tools := ReadList(At(raw, Tools)).value)
    ensures r.Err? ==> r.error.Invalid? && FirstUnreadable(raw, r.error.field, 1, 2)
  {
    var req := start;
    if Messages in raw {
      var items :- Need(ReadList(raw[Messages]), Messages);
      req := req.(messages := items);
    }
    if Tools in raw {
      var items :- Need(ReadList(raw[Tools]), Tools);
      req := req.(tools := items);
    }
    r := Ok(req);
  }

  /** temperature, top_p and max_tokens; an absent one keeps its zero value. */
  method ParseSampling(raw: Fields, start: Request) returns (r: Result<Request>)
    requires start.temperature.None? && start.topP.None? && start.maxTokens.None?
    ensures r.Ok? <==> Readable(raw, Temperature) && Readable(raw, TopP) && Readable(raw, MaxTokens)
    ensures r.Ok? ==> r.value == start.(
              temperature := ReadReal(At(raw, Temperature)).value, topP := ReadReal(At(raw, TopP)).value,
              maxTokens := ReadInt(At(raw, MaxTokens)).value)
    ensures r.Err? ==> r.error.Invalid? && FirstUnreadable(raw, r.error.field, 3, 5)
  {
    var req := start;
    if Temperature in raw {
      var x :- Need(ReadReal(raw[Temperature]), Temperature);
      req := req.(temperature := x);
    }
    if TopP in raw {
      var x :- Need(ReadReal(raw[TopP]), TopP);
      req := req.(topP := x);
    }
    if MaxTokens in raw {
      var x :- Need(ReadInt(raw[MaxTokens]), MaxTokens);
      req := req.(maxTokens := x);
    }
    r := Ok(req);
  }

  /** stop, seed, n and stream. */
  method ParseRest(raw: Fields, start: Request) returns (r: Result<Request>)
    requires start.stop.None? && start.seed.None? && start.n.None? && !start.stream
    ensures r.Ok? <==> Readable(raw, Stop) && Readable(raw, Seed) && Readable(raw, N) && Readable(raw, Stream)
    ensures r.Ok? ==> r.value == start.(
              stop := ReadStop(At(raw, Stop)).value, seed := ReadInt(At(raw, Seed)).value,
              n := ReadInt(At(raw, N)).value, stream := ReadBool(At(raw, Stream)).value)
    ensures r.Err? ==> r.error.Invalid? && FirstUnreadable(raw, r.error.field, 6, 9)
  {
    var req := start;
    if Stop in raw {
      var x :- Need(ReadStop(raw[Stop]), Stop);
      req := req.(stop := x);
    }
    if Seed in raw {
      var x :- Need(ReadInt(raw[Seed]), Seed);
      req := req.(seed := x);
    }
    if N in raw {
      var x :- Need(ReadInt(raw[N]), N);
      req := req.(n := x);
    }
    if Stream in raw {
      var x :- Need(ReadBool(raw[Stream]), Stream);
      req := req.(stream := x);
    }
    r := Ok(req);
  }

  const ZERO := Request(NO_NAME, None, None, None, None, None, None, None, None, None, None, false, map[])

  /** The known fields deleted from the raw map. */
  method Leftover(raw: Fields) returns (extra: Fields)
    ensures extra == Extra(raw)
  {
    extra := raw;
    for i := 0 to |KNOWN_FIELDS|
      invariant forall f :: f in extra <==> f in raw && f !in KNOWN_FIELDS[..i]
      invariant forall f :: f in extra ==> extra[f] == raw[f]
    {
      assert KNOWN_FIELDS[..i + 1] == KNOWN_FIELDS[..i] + [KNOWN_FIELDS[i]];
      extra := extra - {KNOWN_FIELDS[i]};
    }
    KnownAreModelled();
  }

  lemma KnownAreModelled()
    ensures forall f: Field :: f in KNOWN_FIELDS[..|KNOWN_FIELDS|] <==> !f.Unmodelled?
  {
    assert KNOWN_FIELDS[..|KNOWN_FIELDS|] == KNOWN_FIELDS;
    forall f: Field ensures f in KNOWN_FIELDS <==> !f.Unmodelled? {
      match f {
        case Model => assert KNOWN_FIELDS[0] == f;
        case Messages => assert KNOWN_FIELDS[1] == f;
        case Tools => assert KNOWN_FIELDS[2] == f;
        case ToolChoice => assert KNOWN_FIELDS[3] == f;
        case ResponseFormat => assert KNOWN_FIELDS[4] == f;
        case Temperature => assert KNOWN_FIELDS[5] == f;
        case TopP => assert KNOWN_FIELDS[6] == f;
        case MaxTokens => assert KNOWN_FIELDS[7] == f;
        case Stop => assert KNOWN_FIELDS[8] == f;
        case Seed => assert KNOWN_FIELDS[9] == f;
        case N => assert KNOWN_FIELDS[10] == f;
        case Stream => assert KNOWN_FIELDS[11] == f;
        case Unmodelled(_) =>
      }
    }
  }

  method ParseCanonicalRequest(body: Body) returns (r: Result<Request>)
    ensures r.Err? && r.error.Invalid? ==> body.Body? && FirstUnreadable(body.fields, r.error.field, 0, 9)
    ensures r.Ok? <==> body.Body? && Accepted(body.fields)
    ensures r.Ok? ==> r.value == Parsed(body.fields)
    ensures r == Err(InvalidJSON) <==> body.NotAnObject?
    ensures r == Err(MissingModel) <==>
              body.NullBody? || (body.Body? && At(body.fields, Model) in {Null, Text(NO_NAME)})
  {
    if body.NotAnObject? {
      return Err(InvalidJSON);
    }
    var raw: Fields := if body.NullBody? then map[] else body.fields;
    var req := ZERO;
    if Model in raw {
      var name :- Need(ReadName(raw[Model]), Model);
      req := req.(model := name);
    }
    if req.model == NO_NAME {
      return Err(MissingModel);
    }
    req :- ParseLists(raw, req);
    req := req.(toolChoice := Kept(raw, ToolChoice), responseFormat := Kept(raw, ResponseFormat));
    req :- ParseSampling(raw, req);
    req :- ParseRest(raw, req);
    var extra := Leftover(raw);
    r := Ok(req.(extra := extra));
  }

  // ---------------------------------------------------------------- which bodies, in terms of their JSON

  ghost predicate IsInt64(v: JSON) {
    v.Number? && v.plain && v.value == v.value.Floor as real
    && -9223372036854775808 <= v.value.Floor <= 9223372036854775807
  }

  ghost predicate IsStop(v: JSON) {
    v.Text? || (v.List? && forall i :: 0 <= i < |v.items| ==> v.items[i].Text? || v.items[i].Null?)
  }

  /** The shapes a field may have; a null reads as an absent field. */
  ghost predicate HasShape(raw: Fields, f: Field) {
    var v := At(raw, f);
    match f
    case Model => v.Null? || v.Text?
    case Messages => v.Null? || v.List?
    case Tools => v.Null? || v.List?
    case ToolChoice => true
    case ResponseFormat => true
    case Temperature => v.Null? || v.Number?
    case TopP => v.Null? || v.Number?
    case MaxTokens => v.Null? || IsInt64(v)
    case Stop => v.Null? || IsStop(v)
    case Seed => v.Null? || IsInt64(v)
    case N => v.Null? || IsInt64(v)
    case Stream => v.Null? || v.Bool?
    case Unmodelled(_) => true
  }

  ghost predicate WellShaped(raw: Fields) {
    (forall f: Field :: HasShape(raw, f)) && At(raw, Model).Text? && At(raw, Model).text != NO_NAME
  }

  /** The texts of a list, a null among them reading as the empty one. */
  ghost predicate AreNames(names: seq<Name>, items: seq<JSON>) {
    |names| == |items| && forall i :: 0 <= i < |items| ==> names[i] == if items[i].Text? then items[i].text else NO_NAME
  }

  lemma {:induction false} NamesMeaning(items: seq<JSON>)
    ensures ReadNames(items).Some? <==> forall i :: 0 <= i < |items| ==> items[i].Text? || items[i].Null?
    ensures ReadNames(items).Some? ==> AreNames(ReadNames(items).value, items)
  {
    if items != [] {
      NamesMeaning(items[1..]);
      assert forall i :: 1 <= i < |items| ==> items[i] == items[1..][i - 1];
    }
  }

  lemma ReadableIff(raw: Fields, f: Field)
    ensures Readable(raw, f) <==> HasShape(raw, f)
  {
    if At(raw, f).List? {
      NamesMeaning(At(raw, f).items);
    }
  }

  /** The parser accepts exactly the well-shaped bodies. */
  lemma AcceptedIff(raw: Fields)
    ensures Accepted(raw) <==> WellShaped(raw)
  {
    forall f: Field ensures Readable(raw, f) <==> HasShape(raw, f) {
      ReadableIff(raw, f);
    }
    assert (Accepted(raw) ==> Readable(raw, Model)) && (WellShaped(raw) ==> HasShape(raw, Model));
  }

  function Items(v: Option<JSON>): Option<seq<JSON>> {
    if v.Some? && v.value.List? then Some(v.value.items) else None
  }

  function Real(v: Option<JSON>): Option<real> {
    if v.Some? && v.value.Number? then Some(v.value.value) else None
  }

  function Whole(v: Option<JSON>): Option<int> {
    if v.Some? && v.value.Number? then Some(v.value.value.Floor) else None
  }

  /** And what each shape parses to: nulls to nothing, a lone `stop` to a list of
      one, the unmodelled fields to themselves. */
  lemma ParsedMeaning(raw: Fields)
    requires Accepted(raw)
    ensures var r := Parsed(raw);
            && Kept(raw, Model) == Some(Text(r.model))
            && r.messages == Items(Kept(raw, Messages)) && r.tools == Items(Kept(raw, Tools))
            && r.toolChoice == Kept(raw, ToolChoice) && r.responseFormat == Kept(raw, ResponseFormat)
            && r.temperature == Real(Kept(raw, Temperature)) && r.topP == Real(Kept(raw, TopP))
            && r.maxTokens == Whole(Kept(raw, MaxTokens)) && r.seed == Whole(Kept(raw, Seed)) && r.n == Whole(Kept(raw, N))
            && (r.stream <==> Kept(raw, Stream) == Some(Bool(true)))
            && (forall f: Field :: Kept(r.extra, f) == if f.Unmodelled? then Kept(raw, f) else None)
    ensures match Kept(raw, Stop)
            case Some(Text(t)) => Parsed(raw).stop == Some([t])
            case Some(List(items)) => Parsed(raw).stop.Some? && AreNames(Parsed(raw).stop.value, items)
            case _ => Parsed(raw).stop == None
  {
    AcceptedIff(raw);
    ShapesRead(raw);
    StopRead(raw);
    assert forall f: Field :: Kept(Extra(raw), f) == if f.Unmodelled? then Kept(raw, f) else None;
  }

  lemma StopRead(raw: Fields)
    requires WellShaped(raw)
    ensures ReadStop(At(raw, Stop)).Some?
    ensures match Kept(raw, Stop)
            case Some(Text(t)) => ReadStop(At(raw, Stop)).value == Some([t])
            case Some(List(items)) =>
              ReadStop(At(raw, Stop)).value.Some? && AreNames(ReadStop(At(raw, Stop)).value.value, items)
            case _ => ReadStop(At(raw, Stop)).value == None
  {
    assert HasShape(raw, Stop);
    if At(raw, Stop).List? {
      NamesMeaning(At(raw, Stop).items);
    }
  }

  /** The Read functions on well-shaped fields. */
  lemma ShapesRead(raw: Fields)
    requires WellShaped(raw)
    ensures ReadName(At(raw, Model)) == Some(At(raw, Model).text)
    ensures ReadList(At(raw, Messages)) == Some(Items(Kept(raw, Messages))) && ReadList(At(raw, Tools)) == Some(Items(Kept(raw, Tools)))
    ensures ReadReal(At(raw, Temperature)) == Some(Real(Kept(raw, Temperature))) && ReadReal(At(raw, TopP)) == Some(Real(Kept(raw, TopP)))
    ensures ReadInt(At(raw, MaxTokens)) == Some(Whole(Kept(raw, MaxTokens))) && ReadInt(At(raw, Seed)) == Some(Whole(Kept(raw, Seed)))
    ensures ReadInt(At(raw, N)) == Some(Whole(Kept(raw, N)))
    ensures ReadBool(At(raw, Stream)) == Some(Kept(raw, Stream) == Some(Bool(true)))
  {
    assert HasShape(raw, Messages) && HasShape(raw, Tools) && HasShape(raw, Temperature) && HasShape(raw, TopP);
    assert HasShape(raw, MaxTokens) && HasShape(raw, Seed) && HasShape(raw, N) && HasShape(raw, Stream);
  }

  // ---------------------------------------------------------------- the printer

  const EXPONENT_FROM := 1_000_000_000_000_000_000_000.0   // 1e21, from where a float prints with an exponent

  function PrintReal(x: real): JSON {
    Number(x, x == x.Floor as real && -EXPONENT_FROM < x < EXPONENT_FROM)
  }

  function PrintInt(x: int): JSON {
    Number(x as real, true)
  }

  function PrintNames(names: seq<Name>): seq<JSON> {
    if names == [] then [] else [Text(names[0])] + PrintNames(names[1..])
  }

  /** What a field of the output is; None if it is left out. */
  function Printed(r: Request, f: Field): Option<JSON> {
    match f
    case Model => Some(Text(r.model))
    case Messages => if r.messages.Some? then Some(List(r.messages.value)) else None
    case Tools => if r.tools.Some? then Some(List(r.tools.value)) else None
    case ToolChoice => r.toolChoice
    case ResponseFormat => r.responseFormat
    case Temperature => if r.temperature.Some? then Some(PrintReal(r.temperature.value)) else None
    case TopP => if r.topP.Some? then Some(PrintReal(r.topP.value)) else None
    case MaxTokens => if r.maxTokens.Some? then Some(PrintInt(r.maxTokens.value)) else None
    case Stop => if r.stop.Some? && r.stop.value != [] then Some(List(PrintNames(r.stop.value))) else None
    case Seed => if r.seed.Some? then Some(PrintInt(r.seed.value)) else None
    case N => if r.n.Some? then Some(PrintInt(r.n.value)) else None
    case Stream => if r.stream then Some(Bool(true)) else None
    case Unmodelled(_) => Kept(r.extra, f)
  }

  /** A field of the output: what the request sets, else what Extra holds. */
  function Output(r: Request, f: Field): Option<JSON> {
    if Printed(r, f).Some? then Printed(r, f) else Kept(r.extra, f)
  }

  ghost predicate Prints(r: Request, out: Fields) {
    forall f: Field :: Kept(out, f) == Output(r, f)
  }

  /** JSON: the extra fields, then over them each known one that is set. */
  method PrintRequest(r: Request) returns (out: Fields)
    ensures Prints(r, out)
  {
    out := r.extra;
    for i := 0 to |KNOWN_FIELDS|
      invariant forall f: Field :: Kept(out, f) == if f in KNOWN_FIELDS[..i] then Output(r, f) else Kept(r.extra, f)
    {
      var f := KNOWN_FIELDS[i];
      assert KNOWN_FIELDS[..i + 1] == KNOWN_FIELDS[..i] + [f];
      var v := Printed(r, f);
      if v.Some? {
        out := out[f := v.value];
      }
    }
    KnownAreModelled();
  }

  // ---------------------------------------------------------------- there and back

  /** Extra never holds a known field, so nothing in it can shadow or fill one. */
  lemma ExtraIsApart(raw: Fields, f: Field)
    requires Accepted(raw)
    ensures f in Parsed(raw).extra <==> f in raw && f.Unmodelled?
    ensures Output(Parsed(raw), f) == Printed(Parsed(raw), f)
  {
  }

  lemma {:induction false} NamesAgain(names: seq<Name>)
    ensures ReadNames(PrintNames(names)) == Some(names)
    ensures PrintNames(names) == [] <==> names == []
  {
    if names != [] {
      NamesAgain(names[1..]);
      assert PrintNames(names)[1..] == PrintNames(names[1..]) && names == [names[0]] + names[1..];
    }
  }

  /** What parsing then printing makes of one field: nulls, an empty `stop` and
      `stream: false` go; a lone `stop` becomes an array; floats are reprinted. */
  function Normalised(raw: Fields, f: Field): Option<JSON> {
    var kept := Kept(raw, f);
    match f
    case Messages => if kept == Some(Null) then None else kept
    case Tools => if kept == Some(Null) then None else kept
    case Temperature => NormalReal(kept)
    case TopP => NormalReal(kept)
    case MaxTokens => if kept == Some(Null) then None else kept
    case Seed => if kept == Some(Null) then None else kept
    case N => if kept == Some(Null) then None else kept
    case Stop => NormalStop(kept)
    case Stream => if kept == Some(Bool(true)) then kept else None
    case _ => kept
  }

  function NormalReal(kept: Option<JSON>): Option<JSON> {
    if kept.Some? && kept.value.Number?
    then
      var x := kept.value.value;
      Some(Number(x, x == x.Floor as real
                     && -1_000_000_000_000_000_000_000.0 < x < 1_000_000_000_000_000_000_000.0))
    else None
  }

  function NormalStop(kept: Option<JSON>): Option<JSON> {
    match kept
    case Some(Text(t)) => Some(List([Text(t)]))
    case Some(List(items)) => if items == [] then None else Some(List(NullsToTexts(items)))
    case _ => None
  }

  function NullsToTexts(items: seq<JSON>): seq<JSON> {
    if items == [] then [] else [if items[0].Null? then Text(NO_NAME) else items[0]] + NullsToTexts(items[1..])
  }

  lemma {:induction false} NamesReprint(items: seq<JSON>)
    requires ReadNames(items).Some?
    ensures PrintNames(ReadNames(items).value) == NullsToTexts(items)
    ensures ReadNames(items).value == [] <==> items == []
  {
    if items != [] {
      NamesReprint(items[1..]);
      var names := ReadNames(items).value;
      assert names[1..] == ReadNames(items[1..]).value;
    }
  }

  lemma StopReprints(raw: Fields)
    requires Accepted(raw)
    ensures Printed(Parsed(raw), Stop) == Normalised(raw, Stop)
  {
    assert Readable(raw, Stop);
    match At(raw, Stop) {
      case List(items) => NamesReprint(items);
      case Text(t) =>
        assert [t][1..] == [] && PrintNames([]) == [];
        assert PrintNames([t]) == [Text(t)];
      case _ =>
    }
  }

  lemma IntReprints(v: JSON)
    requires ReadInt(v).Some? && ReadInt(v).value.Some?
    ensures PrintInt(ReadInt(v).value.value) == v
  {
  }

  lemma IntsReprint(raw: Fields, f: Field)
    requires Accepted(raw) && (f.MaxTokens? || f.Seed? || f.N?)
    ensures Printed(Parsed(raw), f) == Normalised(raw, f)
  {
    assert Readable(raw, f);
    if ReadInt(At(raw, f)).value.Some? {
      IntReprints(At(raw, f));
    }
  }

  /** Parsing and printing is field-by-field normalisation, and leaves tool_choice,
      response_format and every unmodelled field exactly as they were. */
  lemma PrintedIsNormalised(raw: Fields, f: Field)
    requires Accepted(raw)
    ensures Output(Parsed(raw), f) == Normalised(raw, f)
    ensures f.ToolChoice? || f.ResponseFormat? || f.Unmodelled? ==> Output(Parsed(raw), f) == Kept(raw, f)
  {
    ExtraIsApart(raw, f);
    assert Readable(raw, f);
    match f {
      case MaxTokens => IntsReprint(raw, f);
      case Seed => IntsReprint(raw, f);
      case N => IntsReprint(raw, f);
      case Stop => StopReprints(raw);
      case _ =>
    }
  }

  lemma StopAgain(raw: Fields, out: Fields)
    requires Accepted(raw) && Prints(Parsed(raw), out)
    ensures var stop := Parsed(raw).stop; ReadStop(At(out, Stop)) == Some(if stop == Some([]) then None else stop)
  {
    assert Readable(raw, Stop);
    ExtraIsApart(raw, Stop);
    assert Kept(out, Stop) == Output(Parsed(raw), Stop);
    var stop := Parsed(raw).stop;
    if stop.Some? {
      NamesAgain(stop.value);
    }
  }

  lemma IntsAgain(raw: Fields, out: Fields, f: Field)
    requires Accepted(raw) && Prints(Parsed(raw), out) && (f.MaxTokens? || f.Seed? || f.N?)
    ensures ReadInt(At(out, f)) == ReadInt(At(raw, f))
  {
    IntsReprint(raw, f);
    PrintedIsNormalised(raw, f);
    assert Kept(out, f) == Output(Parsed(raw), f);
  }

  lemma RealsAgain(raw: Fields, out: Fields, f: Field)
    requires Accepted(raw) && Prints(Parsed(raw), out) && (f.Temperature? || f.TopP?)
    ensures ReadReal(At(out, f)) == ReadReal(At(raw, f))
  {
    assert Readable(raw, f);
    PrintedIsNormalised(raw, f);
    assert Kept(out, f) == Output(Parsed(raw), f);
  }

  lemma ListsAgain(raw: Fields, out: Fields, f: Field)
    requires Accepted(raw) && Prints(Parsed(raw), out) && (f.Messages? || f.Tools?)
    ensures ReadList(At(out, f)) == ReadList(At(raw, f))
  {
    assert Readable(raw, f);
    PrintedIsNormalised(raw, f);
    assert Kept(out, f) == Output(Parsed(raw), f);
  }

  lemma ScalarsAgain(raw: Fields, out: Fields)
    requires Accepted(raw) && Prints(Parsed(raw), out)
    ensures ReadName(At(out, Model)) == ReadName(At(raw, Model)) && ReadBool(At(out, Stream)) == ReadBool(At(raw, Stream))
    ensures Kept(out, ToolChoice) == Kept(raw, ToolChoice) && Kept(out, ResponseFormat) == Kept(raw, ResponseFormat)
  {
    assert Readable(raw, Model) && Readable(raw, Stream);
    ExtraIsApart(raw, Model);
    PrintedIsNormalised(raw, Stream);
    PrintedIsNormalised(raw, ToolChoice);
    PrintedIsNormalised(raw, ResponseFormat);
    assert Kept(out, Model) == Output(Parsed(raw), Model) && Kept(out, Stream) == Output(Parsed(raw), Stream);
    assert Kept(out, ToolChoice) == Output(Parsed(raw), ToolChoice);
    assert Kept(out, ResponseFormat) == Output(Parsed(raw), ResponseFormat);
  }

  lemma ExtraAgain(raw: Fields, out: Fields)
    requires Accepted(raw) && Prints(Parsed(raw), out)
    ensures Extra(out) == Extra(raw)
  {
    forall f: Field | f.Unmodelled? ensures Kept(out, f) == Kept(raw, f) {
      PrintedIsNormalised(raw, f);
      assert Kept(out, f) == Output(Parsed(raw), f);
    }
    assert forall f: Field :: f in Extra(out) <==> Kept(out, f).Some? && f.Unmodelled?;
    assert forall f: Field :: f in Extra(raw) <==> Kept(raw, f).Some? && f.Unmodelled?;
  }

  /** What is printed is accepted, and parses back to the same request, but for an
      empty `stop`, which is not printed. */
  lemma ParseAfterPrint(raw: Fields, out: Fields)
    requires Accepted(raw) && Prints(Parsed(raw), out)
    ensures Accepted(out)
    ensures var r := Parsed(raw); Parsed(out) == r.(stop := if r.stop == Some([]) then None else r.stop)
  {
    StopAgain(raw, out);
    IntsAgain(raw, out, MaxTokens);
    IntsAgain(raw, out, Seed);
    IntsAgain(raw, out, N);
    RealsAgain(raw, out, Temperature);
    RealsAgain(raw, out, TopP);
    ListsAgain(raw, out, Messages);
    ListsAgain(raw, out, Tools);
    ScalarsAgain(raw, out);
    ExtraAgain(raw, out);
    forall f: Field ensures Readable(out, f) {
      assert Readable(raw, f);
    }
  }

  /** So parser and printer undo each other exactly when the request does not carry
      an empty `stop`. */
  lemma RoundTripIff(raw: Fields, out: Fields)
    requires Accepted(raw) && Prints(Parsed(raw), out)
    ensures Accepted(out) && (Parsed(out) == Parsed(raw) <==> At(raw, Stop) != List([]))
  {
    ParseAfterPrint(raw, out);
    assert Readable(raw, Stop);
    if At(raw, Stop).List? {
      NamesReprint(At(raw, Stop).items);
    }
  }

  /** For instance a body of a model and an empty `stop`. */
  lemma EmptyStopIsLost() returns (raw: Fields, out: Fields)
    ensures Accepted(raw) && At(raw, Stop) == List([]) && Prints(Parsed(raw), out)
    ensures Accepted(out) && Parsed(raw).stop == Some([]) && Parsed(out).stop == None
  {
    raw, out := map[Model := Text(1), Stop := List([])], map[Model := Text(1)];
    forall f: Field ensures Readable(raw, f) {
    }
    ParseAfterPrint(raw, out);
  }

  lemma EmptyStopPrintsNothing(r: Request, f: Field)
    ensures Output(r.(stop := if r.stop == Some([]) then None else r.stop), f) == Output(r, f)
  {
  }

  lemma KeptDetermines(a: Fields, b: Fields)
    requires forall f: Field :: Kept(a, f) == Kept(b, f)
    ensures a == b
  {
    assert forall f: Field :: (f in a <==> Kept(a, f).Some?) && (f in b <==> Kept(b, f).Some?);
    forall f: Field | f in a ensures a[f] == b[f] {
      assert Kept(a, f) == Kept(b, f);
    }
  }

  /** Printing is settled after one round: the second output is the first. */
  lemma PrintSettles(raw: Fields, out: Fields, again: Fields)
    requires Accepted(raw) && Prints(Parsed(raw), out)
    requires Accepted(out) ==> Prints(Parsed(out), again)
    ensures again == out
  {
    ParseAfterPrint(raw, out);
    var r, second := Parsed(raw), Parsed(out);
    forall f: Field ensures Kept(again, f) == Kept(out, f) {
      assert Kept(again, f) == Output(second, f) && Kept(out, f) == Output(r, f);
      EmptyStopPrintsNothing(r, f);
    }
    KeptDetermines(again, out);
  }
}
