/** The error types, their classification through wrapping, and their passage
    from service to service as JSON-API errors. */
module Errors {
  import opened Wrappers
  import opened Format

  /** The code and the detail of a goa.ErrorResponse. */
  datatype Response = Response(code: string, detail: string)

  /** Values of parameters are kept as fmt prints them. `Goa` is a
      goa.ServiceError, which may be a goa.ErrorResponse as well. `Wrapped` is what
      WithStack (no message) and Wrapf of github.com/pkg/errors add. */
  datatype Error =
    | NotFound(entity: string, id: string, preDefined: Option<string>)
    | BadParameter(parameter: string, value: string, expected: Option<string>, preDefined: Option<string>)
    | VersionConflict(message: string)
    | DataConflict(message: string)
    | Conversion(message: string)
    | Unauthorized(message: string)
    | Forbidden(message: string)
    | Internal(err: Error)
    | Goa(status: int, token: string, message: string, response: Option<Response>)
    | Plain(message: string)
    | Wrapped(note: Option<string>, cause: Error)

  function Cause(err: Error): (c: Error)
    ensures !c.Wrapped?
  {
    if err.Wrapped? then Cause(err.cause) else err
  }

  /** The method Error of each type. */
  function Message(err: Error): string {
    match err
    case NotFound(entity, id, preDefined) =>
      if preDefined.Some? then preDefined.value else entity + (" with id '" + (id + "' not found"))
    case BadParameter(parameter, value, expected, preDefined) =>
      if expected.Some? then
        "Bad value for parameter '" + (parameter + ("': '" + (value + ("' (expected: '" + (expected.value + "')")))))
      else if preDefined.Some? then preDefined.value
      else "Bad value for parameter '" + (parameter + ("': '" + (value + "'")))
    case VersionConflict(message) => message
    case DataConflict(message) => message
    case Conversion(message) => message
    case Unauthorized(message) => message
    case Forbidden(message) => message
    case Internal(inner) => Message(inner)
    case Goa(_, _, message, _) => message
    case Plain(message) => message
    case Wrapped(note, cause) => if note.Some? then note.value + (": " + Message(cause)) else Message(cause)
  }

  datatype Class =
    NotFoundError | BadParameterError | VersionConflictError | DataConflictError | ConversionError
    | UnauthorizedError | ForbiddenError | InternalError

  predicate HasClass(err: Error, c: Class) {
    match c
    case NotFoundError => err.NotFound?
    case BadParameterError => err.BadParameter?
    case VersionConflictError => err.VersionConflict?
    case DataConflictError => err.DataConflict?
    case ConversionError => err.Conversion?
    case UnauthorizedError => err.Unauthorized?
    case ForbiddenError => err.Forbidden?
    case InternalError => err.Internal?
  }

  /** The eight classifiers IsNotFoundError, IsBadParameterError and so on. */
  function Is(c: Class, err: Error): (bool, Option<Error>) {
    if HasClass(Cause(err), c) then (true, Some(Cause(err))) else (false, None)
  }

  /** A fixed title, or what net/http calls a status. */
  datatype Title = Title(text: string) | StatusText(status: int)

  datatype JsonApiError = JsonApiError(id: Option<string>, code: string, title: Title, status: int, detail: string)

  function ErrorToJsonApiError(err: Error): (JsonApiError, int) {
    var cause := Cause(err);
    var detail := Message(cause);
    match cause
    case NotFound(_, _, _) => Answer("not_found", "Not found error", 404, detail)
    case Conversion(_) => Answer("conversion_error", "Conversion error", 400, detail)
    case BadParameter(_, _, _, _) => Answer("bad_parameter", "Bad parameter error", 400, detail)
    case VersionConflict(_) => Answer("version_conflict", "Version conflict error", 409, detail)
    case DataConflict(_) => Answer("data_conflict_error", "Data conflict error", 409, detail)
    case Internal(_) => Answer("internal_error", "Internal error", 500, detail)
    case Unauthorized(_) => Answer("unauthorized_error", "Unauthorized error", 401, detail)
    case Forbidden(_) => Answer("forbidden_error", "Forbidden error", 403, detail)
    case Goa(status, token, _, None) =>
      (JsonApiError(Some(token), "unknown_error", StatusText(status), status, detail), status)
    case Goa(status, token, _, Some(response)) =>
      (JsonApiError(Some(token), response.code, StatusText(status), status, response.detail), status)
    case _ => Answer("unknown_error", "Unknown error", 500, detail)
  }

  function Answer(code: string, title: string, status: int, detail: string): (JsonApiError, int) {
    (JsonApiError(None, code, Title(title), status, detail), status)
  }

  function ErrorToJsonApiErrors(err: Error): (seq<JsonApiError>, int) {
    var (jerr, status) := ErrorToJsonApiError(err);
    ([jerr], status)
  }

  /** The response that goes out: `supported` are the statuses for which the
      context has a method of its own; any other one is sent as a 500. */
  function JsonErrorResponse(supported: set<int>, err: Error): (seq<JsonApiError>, int) {
    var (jerrs, status) := ErrorToJsonApiErrors(err);
    (jerrs, if status in {400, 404, 401, 403, 409} && status in supported then status else 500)
  }

  function FromStatusCode(status: int, format: string): Error {
    var msg := Sprintf(format);
    if status == 404 then NotFound("", "", Some(msg))
    else if status == 400 then BadParameter("", "", None, Some(msg))
    else if status == 409 then VersionConflict(msg)
    else if status == 401 then Unauthorized(msg)
    else if status == 403 then Forbidden(msg)
    else Internal(Plain(msg))
  }

  /** One service answers with an error, and its client turns the answer back
      into an error, with a note of its own. */
  function Hop(supported: set<int>, note: string, err: Error): Error {
    var (jerrs, status) := JsonErrorResponse(supported, err);
    Wrapped(Some(note), FromStatusCode(status, jerrs[0].detail))
  }

  datatype Service = Service(supported: set<int>, note: string)

  function Hops(services: seq<Service>, err: Error): Error {
    if services == [] then err
    else
      var last := services[|services| - 1];
      Hop(last.supported, last.note, Hops(services[..|services| - 1], err))
  }

  function Wrap(notes: seq<Option<string>>, err: Error): Error {
    if notes == [] then err else Wrapped(notes[0], Wrap(notes[1..], err))
  }

  /** Wrapping to any depth changes neither classification nor conversion. */
  lemma {:induction false} WrappingIsInvisible(notes: seq<Option<string>>, err: Error)
    ensures Cause(Wrap(notes, err)) == Cause(err)
    ensures forall c :: Is(c, Wrap(notes, err)) == Is(c, err)
    ensures ErrorToJsonApiError(Wrap(notes, err)) == ErrorToJsonApiError(err)
  {
    if notes != [] {
      WrappingIsInvisible(notes[1..], err);
    }
  }

  function CodeOf(c: Class): string {
    match c
    case NotFoundError => "not_found"
    case BadParameterError => "bad_parameter"
    case VersionConflictError => "version_conflict"
    case DataConflictError => "data_conflict_error"
    case ConversionError => "conversion_error"
    case UnauthorizedError => "unauthorized_error"
    case ForbiddenError => "forbidden_error"
    case InternalError => "internal_error"
  }

  // The class of an unwrapped error, if it has one.
  function ClassOf(err: Error): (c: Option<Class>)
    ensures forall k :: HasClass(err, k) <==> c == Some(k)
  {
    match err
    case NotFound(_, _, _) => Some(NotFoundError)
    case BadParameter(_, _, _, _) => Some(BadParameterError)
    case VersionConflict(_) => Some(VersionConflictError)
    case DataConflict(_) => Some(DataConflictError)
    case Conversion(_) => Some(ConversionError)
    case Unauthorized(_) => Some(UnauthorizedError)
    case Forbidden(_) => Some(ForbiddenError)
    case Internal(_) => Some(InternalError)
    case _ => None
  }

  lemma CodesDiffer(c: Class, d: Class)
    ensures CodeOf(c) == CodeOf(d) ==> c == d
    ensures CodeOf(c) != "unknown_error"
  {
    assert CodeOf(c)[0] == CodeOf(d)[0] && |CodeOf(c)| == |CodeOf(d)| ==> c == d;
  }

  lemma ConversionCode(err: Error)
    ensures ErrorToJsonApiError(err).0.code ==
            match ClassOf(Cause(err))
            case None => if HasOwnCode(err) then Cause(err).response.value.code else "unknown_error"
            case Some(k) => CodeOf(k)
  {
  }

  /** A goa.ErrorResponse brings a code of its own. */
  predicate HasOwnCode(err: Error) {
    Cause(err).Goa? && Cause(err).response.Some?
  }

  /** Classifiers and conversion agree: a classifier accepts an error exactly if
      its conversion has that classifier's code, and that is not the code of a
      goa.ErrorResponse; so at most one accepts it. */
  lemma ClassifiersAgreeWithConversion(err: Error, c: Class, d: Class)
    ensures Is(c, err).0 <==> ErrorToJsonApiError(err).0.code == CodeOf(c) && !HasOwnCode(err)
    ensures Is(c, err).0 && Is(d, err).0 ==> c == d
  {
    ConversionCode(err);
    CodesDiffer(c, c);
    match ClassOf(Cause(err))
    case None =>
    case Some(k) => CodesDiffer(c, k);
  }

  /** A classifier answers with the unwrapped error, exactly if it is of its type. */
  lemma ClassifiersReturnTheCause(err: Error)
    ensures forall c :: Is(c, err) == (true, Some(Cause(err))) || Is(c, err) == (false, None)
    ensures Is(NotFoundError, err).0 <==> Cause(err).NotFound?
    ensures Is(BadParameterError, err).0 <==> Cause(err).BadParameter?
    ensures Is(VersionConflictError, err).0 <==> Cause(err).VersionConflict?
    ensures Is(DataConflictError, err).0 <==> Cause(err).DataConflict?
    ensures Is(ConversionError, err).0 <==> Cause(err).Conversion?
    ensures Is(UnauthorizedError, err).0 <==> Cause(err).Unauthorized?
    ensures Is(ForbiddenError, err).0 <==> Cause(err).Forbidden?
    ensures Is(InternalError, err).0 <==> Cause(err).Internal?
  {
  }

  function StatusOf(err: Error): int {
    ErrorToJsonApiError(err).1
  }

  function DetailOf(err: Error): string {
    ErrorToJsonApiError(err).0.detail
  }

  /** The status of every type of error, by number; the detail is the error's own
      message, unless a goa.ErrorResponse brings one. */
  lemma StatusByType(err: Error)
    ensures ErrorToJsonApiError(err).0.status == StatusOf(err)
    ensures Cause(err).NotFound? ==> StatusOf(err) == 404
    ensures Cause(err).BadParameter? || Cause(err).Conversion? ==> StatusOf(err) == 400
    ensures Cause(err).VersionConflict? || Cause(err).DataConflict? ==> StatusOf(err) == 409
    ensures Cause(err).Unauthorized? ==> StatusOf(err) == 401
    ensures Cause(err).Forbidden? ==> StatusOf(err) == 403
    ensures Cause(err).Internal? || Cause(err).Plain? ==> StatusOf(err) == 500
    ensures Cause(err).Goa? ==> StatusOf(err) == Cause(err).status
    ensures DetailOf(err) == if HasOwnCode(err) then Cause(err).response.value.detail else Message(Cause(err))
    ensures ErrorToJsonApiError(err).0.id == if Cause(err).Goa? then Some(Cause(err).token) else None
    ensures ErrorToJsonApiError(err).0.title ==
            match Cause(err)
            case NotFound(_, _, _) => Title("Not found error")
            case BadParameter(_, _, _, _) => Title("Bad parameter error")
            case VersionConflict(_) => Title("Version conflict error")
            case DataConflict(_) => Title("Data conflict error")
            case Conversion(_) => Title("Conversion error")
            case Unauthorized(_) => Title("Unauthorized error")
            case Forbidden(_) => Title("Forbidden error")
            case Internal(_) => Title("Internal error")
            case Goa(status, _, _, _) => StatusText(status)
            case Plain(_) => Title("Unknown error")
  {
  }

  /** The error a status stands for converts back to that status. */
  lemma FromStatusCodeConvertsBack(status: int, format: string)
    ensures var e := FromStatusCode(status, format);
            && Cause(e) == e && Message(e) == Sprintf(format)
            && DetailOf(e) == Sprintf(format)
            && (e.NotFound? ==> e.entity == "" && e.id == "")
            && (e.BadParameter? ==> e.parameter == "" && e.value == "" && e.expected.None?)
            && StatusOf(e) == if status in {400, 401, 403, 404, 409} then status else 500
  {
    var msg := Sprintf(format);
    assert Message(Internal(Plain(msg))) == Message(Plain(msg)) == msg;
  }

  /** The statuses that have a response of their own, if a service supports it. */
  predicate Passes(status: int, s: Service) {
    status in {400, 401, 403, 404, 409} && status in s.supported
  }

  /** What is sent: the one error, with the status if there is a response for it,
      and with 500 otherwise. */
  lemma ResponseIsOneError(s: Service, err: Error)
    ensures JsonErrorResponse(s.supported, err)
            == ([ErrorToJsonApiError(err).0], if Passes(StatusOf(err), s) then StatusOf(err) else 500)
  {
  }

  lemma HopIsFromStatusCode(s: Service, err: Error)
    ensures var status := if Passes(StatusOf(err), s) then StatusOf(err) else 500;
            Cause(Hop(s.supported, s.note, err)) == FromStatusCode(status, DetailOf(err))
  {
    var (jerrs, status) := JsonErrorResponse(s.supported, err);
    FromStatusCodeConvertsBack(status, jerrs[0].detail);
    assert jerrs == [ErrorToJsonApiError(err).0];
  }

  lemma HopKeepsOrDegrades(s: Service, err: Error)
    ensures StatusOf(Hop(s.supported, s.note, err)) == if Passes(StatusOf(err), s) then StatusOf(err) else 500
    ensures DetailOf(Hop(s.supported, s.note, err)) == Sprintf(DetailOf(err))
  {
    HopIsFromStatusCode(s, err);
    var status := if Passes(StatusOf(err), s) then StatusOf(err) else 500;
    FromStatusCodeConvertsBack(status, DetailOf(err));
  }

  /** Every hop hands the detail to fmt once more. */
  lemma {:induction false} HopsFormatDetail(services: seq<Service>, err: Error)
    ensures DetailOf(Hops(services, err)) == Times(|services|, DetailOf(err))
  {
    if services != [] {
      var init, last := services[..|services| - 1], services[|services| - 1];
      HopsFormatDetail(init, err);
      HopKeepsOrDegrades(last, Hops(init, err));
    }
  }

  /** The detail comes in as a format. It survives any positive number of hops
      exactly if it has no '%', and one that has a '%' never loses its last. */
  lemma DetailSurvivesIffNoPercent(services: seq<Service>, err: Error)
    requires services != []
    ensures DetailOf(Hops(services, err)) == DetailOf(err) <==> '%' !in DetailOf(err)
    ensures '%' in DetailOf(err) <==> '%' in DetailOf(Hops(services, err))
  {
    HopsFormatDetail(services, err);
    KeptIffNoPercent(|services|, DetailOf(err));
  }

  /** After one hop or more the status is the one it was, exactly if it is among
      five and every service on the way has a response of its own for it, or if
      it is 500; otherwise it is 500. */
  lemma {:induction false} HopsKeepStatus(services: seq<Service>, err: Error)
    requires services != []
    ensures StatusOf(Hops(services, err)) ==
            if forall s :: s in services ==> Passes(StatusOf(err), s) then StatusOf(err) else 500
  {
    var init, last := services[..|services| - 1], services[|services| - 1];
    assert services == init + [last];
    if init != [] {
      HopsKeepStatus(init, err);
    }
    HopKeepsOrDegrades(last, Hops(init, err));
  }

  /** The outermost note is that of the last service. */
  lemma LastNoteIsOutermost(services: seq<Service>, err: Error)
    requires services != []
    ensures Hops(services, err).Wrapped? && Hops(services, err).note == Some(services[|services| - 1].note)
  {
  }

  /** After the first hop the class of an error is a function of its status: the
      client sees no conversion, data conflict or unknown errors. */
  lemma ClassAfterHop(s: Service, err: Error)
    ensures var e, status := Hop(s.supported, s.note, err), if Passes(StatusOf(err), s) then StatusOf(err) else 500;
            && (Is(NotFoundError, e).0 <==> status == 404)
            && (Is(BadParameterError, e).0 <==> status == 400)
            && (Is(VersionConflictError, e).0 <==> status == 409)
            && (Is(UnauthorizedError, e).0 <==> status == 401)
            && (Is(ForbiddenError, e).0 <==> status == 403)
            && (Is(InternalError, e).0 <==> status == 500)
            && !Is(ConversionError, e).0 && !Is(DataConflictError, e).0
  {
    HopIsFromStatusCode(s, err);
  }

  /** What arrives for each type of error: conflicts of data as conflicts of
      versions, conversion errors as bad parameters, and whatever the service has
      no response for as an internal error. */
  lemma TypeAfterHop(s: Service, err: Error)
    ensures var e := Hop(s.supported, s.note, err);
            && (Cause(err).NotFound? && 404 in s.supported ==> Cause(e).NotFound?)
            && ((Cause(err).BadParameter? || Cause(err).Conversion?) && 400 in s.supported ==> Cause(e).BadParameter?)
            && ((Cause(err).VersionConflict? || Cause(err).DataConflict?) && 409 in s.supported ==> Cause(e).VersionConflict?)
            && (Cause(err).Unauthorized? && 401 in s.supported ==> Cause(e).Unauthorized?)
            && (Cause(err).Forbidden? && 403 in s.supported ==> Cause(e).Forbidden?)
            && (Cause(err).Internal? || Cause(err).Plain? || StatusOf(err) !in s.supported ==> Cause(e).Internal?)
            && (e.Wrapped? && e.note == Some(s.note))
  {
    StatusByType(err);
    HopIsFromStatusCode(s, err);
  }

  /** Sprintf of a format of "%s" and "%v" with texts for them. */
  function Fill(format: string, args: seq<string>): string
    decreases |format|
  {
    if format == [] then []
    else if |format| >= 2 && format[0] == '%' && format[1] in {'s', 'v'} && args != [] then
      args[0] + Fill(format[2..], args[1..])
    else [format[0]] + Fill(format[1..], args)
  }

  lemma {:induction false} FillText(text: string, format: string, args: seq<string>)
    requires '%' !in text
    ensures Fill(text + format, args) == text + Fill(format, args)
  {
    if text == [] {
      assert text + format == format && text + Fill(format, args) == Fill(format, args);
    } else {
      var rest := text[1..] + format;
      FillText(text[1..], format, args);
      assert (text + format)[1..] == rest;
      assert Fill(text + format, args) == [text[0]] + Fill(rest, args);
      HeadAndRest(text, Fill(format, args));
    }
  }

  lemma FillVerb(verb: char, format: string, args: seq<string>)
    requires verb in {'s', 'v'} && args != []
    ensures Fill(['%', verb] + format, args) == args[0] + Fill(format, args[1..])
  {
    assert (['%', verb] + format)[2..] == format;
  }

  const NOT_FOUND := "%s with id '%s' not found"
  const BAD_PARAMETER := "Bad value for parameter '%s': '%v'"
  const BAD_PARAMETER_EXPECTED := "Bad value for parameter '%s': '%v' (expected: '%v')"

  lemma FillOne(a: string, verb: char, b: string, x: string)
    requires '%' !in a && '%' !in b && verb in {'s', 'v'}
    ensures Fill(a + (['%', verb] + b), [x]) == a + (x + b)
  {
    FillText(a, ['%', verb] + b, [x]);
    FillVerb(verb, b, [x]);
    assert [x][1..] == [] && b + [] == b;
    FillText(b, [], []);
  }

  lemma FillTwo(a: string, b: string, verb: char, c: string, x: string, y: string)
    requires '%' !in a && '%' !in b && '%' !in c && verb in {'s', 'v'}
    ensures Fill(a + (['%', 's'] + (b + (['%', verb] + c))), [x, y]) == a + (x + (b + (y + c)))
  {
    var rest := b + (['%', verb] + c);
    FillText(a, ['%', 's'] + rest, [x, y]);
    FillVerb('s', rest, [x, y]);
    assert [x, y][1..] == [y];
    FillOne(b, verb, c, y);
  }

  lemma FillThree(a: string, b: string, c: string, d: string, x: string, y: string, z: string)
    requires '%' !in a && '%' !in b && '%' !in c && '%' !in d
    ensures Fill(a + (['%', 's'] + (b + (['%', 'v'] + (c + (['%', 'v'] + d))))), [x, y, z])
            == a + (x + (b + (y + (c + (z + d)))))
  {
    var last := ['%', 'v'] + d;
    var rest := b + (['%', 'v'] + (c + last));
    FillText(a, ['%', 's'] + rest, [x, y, z]);
    FillVerb('s', rest, [x, y, z]);
    assert [x, y, z][1..] == [y, z] && [y, z][1..] == [z];
    FillText(b, ['%', 'v'] + (c + last), [y, z]);
    FillVerb('v', c + last, [y, z]);
    FillOne(c, 'v', d, z);
  }

  lemma NothingBefore(x: string)
    ensures "" + x == x
  {
  }

  lemma NothingAfter(x: string)
    ensures x + "" == x
  {
  }

  lemma NotFoundFormat()
    ensures NOT_FOUND == "" + (['%', 's'] + (" with id '" + (['%', 's'] + "' not found")))
  {
  }

  lemma BadParameterFormat()
    ensures BAD_PARAMETER == "Bad value for parameter '" + (['%', 's'] + ("': '" + (['%', 'v'] + "'")))
  {
  }

  lemma BadParameterExpectedFormat()
    ensures BAD_PARAMETER_EXPECTED
            == "Bad value for parameter '" + (['%', 's'] + ("': '" + (['%', 'v'] + ("' (expected: '" + (['%', 'v'] + "')")))))
  {
  }

  lemma WrappedFormat()
    ensures "%s: %s" == "" + (['%', 's'] + (": " + (['%', 's'] + "")))
  {
  }

  lemma NotFoundMessage(entity: string, id: string)
    ensures Fill(NOT_FOUND, [entity, id]) == Message(NotFound(entity, id, None))
  {
    NotFoundFormat();
    FillTwo("", " with id '", 's', "' not found", entity, id);
    NothingBefore(entity + (" with id '" + (id + "' not found")));
  }

  lemma BadParameterMessage(parameter: string, value: string)
    ensures Fill(BAD_PARAMETER, [parameter, value]) == Message(BadParameter(parameter, value, None, None))
  {
    BadParameterFormat();
    FillTwo("Bad value for parameter '", "': '", 'v', "'", parameter, value);
  }

  lemma BadParameterExpectedMessage(parameter: string, value: string, expected: string)
    ensures forall preDefined ::
              Fill(BAD_PARAMETER_EXPECTED, [parameter, value, expected])
              == Message(BadParameter(parameter, value, Some(expected), preDefined))
  {
    BadParameterExpectedFormat();
    FillThree("Bad value for parameter '", "': '", "' (expected: '", "')", parameter, value, expected);
  }

  lemma WrappedMessage(note: string, message: string)
    ensures Fill("%s: %s", [note, message]) == note + (": " + message)
  {
    WrappedFormat();
    FillTwo("", ": ", 's', "", note, message);
    NothingAfter(message);
    NothingBefore(note + (": " + message));
  }

  /** The messages, as the source formats them: a predefined one comes before the
      general one, an expected value before both. */
  lemma MessagesAreFormatted(err: Error)
    ensures err.NotFound? ==>
              Message(err) == if err.preDefined.Some? then err.preDefined.value else Fill(NOT_FOUND, [err.entity, err.id])
    ensures err.BadParameter? && err.expected.Some? ==>
              Message(err) == Fill(BAD_PARAMETER_EXPECTED, [err.parameter, err.value, err.expected.value])
    ensures err.BadParameter? && err.expected.None? ==>
              Message(err) == if err.preDefined.Some? then err.preDefined.value
                              else Fill(BAD_PARAMETER, [err.parameter, err.value])
    ensures err.VersionConflict? || err.DataConflict? || err.Conversion? ==> Message(err) == err.message
    ensures err.Unauthorized? || err.Forbidden? || err.Goa? || err.Plain? ==> Message(err) == err.message
    ensures err.Internal? ==> Message(err) == Message(err.err)
    ensures err.Wrapped? && err.note.None? ==> Message(err) == Message(err.cause)
    ensures err.Wrapped? && err.note.Some? ==> Message(err) == Fill("%s: %s", [err.note.value, Message(err.cause)])
  {
    match err
    case NotFound(entity, id, _) => NotFoundMessage(entity, id);
    case BadParameter(parameter, value, Some(expected), _) => BadParameterExpectedMessage(parameter, value, expected);
    case BadParameter(parameter, value, None, _) => BadParameterMessage(parameter, value);
    case Wrapped(Some(note), cause) => WrappedMessage(note, Message(cause));
    case _ =>
  }

  /** A detail that ends in a '%', as "100%" does. */
  lemma TrailingPercentExample(s: Service, text: string)
    requires '%' !in text
    ensures DetailOf(Hop(s.supported, s.note, Forbidden(text + "%"))) == text + "%!(NOVERB)"
  {
    var err := Forbidden(text + "%");
    HopKeepsOrDegrades(s, err);
    PlainPrefix(text, ['%']);
    PercentAtEnd();
    assert DetailOf(err) == text + ['%'];
  }
}
