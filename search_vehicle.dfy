/**
 * The vehicle lookup endpoint (app/api/search-vehicle.ts): the status it
 * answers with, the request it makes to the national vehicle register, and
 * how it flattens the register's nested answer into the app's vehicle record.
 *
 * The register's answer (or the error the HTTP call raised) and the configured
 * API key are inputs. The register's JSON is modelled with the register's own
 * field names; every level of it may be missing.
 */
module SearchVehicle {
  import opened Wrappers

  // ------------------------------------------------- the register's answer

  datatype Merke = Merke(merke: Option<string>)
  datatype Farge = Farge(kodeNavn: Option<string>)

  datatype Generelt = Generelt(
    merke: Option<seq<Merke>>, handelsbetegnelse: Option<seq<string>>, typebetegnelse: Option<string>)
  datatype KarosseriOgLasteplan = KarosseriOgLasteplan(rFarge: Option<seq<Farge>>)
  datatype Persontall = Persontall(sitteplasserTotalt: Option<int>)
  datatype Vekter = Vekter(egenvekt: Option<int>, tillattTotalvekt: Option<int>)

  datatype TekniskeData = TekniskeData(
    generelt: Option<Generelt>, karosseriOgLasteplan: Option<KarosseriOgLasteplan>,
    persontall: Option<Persontall>, vekter: Option<Vekter>)
  datatype TekniskGodkjenning = TekniskGodkjenning(tekniskeData: Option<TekniskeData>)
  datatype ForstegangsGodkjenning = ForstegangsGodkjenning(forstegangRegistrertDato: Option<string>)
  datatype Godkjenning = Godkjenning(
    tekniskGodkjenning: Option<TekniskGodkjenning>, forstegangsGodkjenning: Option<ForstegangsGodkjenning>)
  datatype Forstegangsregistrering = Forstegangsregistrering(registrertForstegangNorgeDato: Option<string>)
  datatype KjoretoyId = KjoretoyId(understellsnummer: Option<string>, kjennemerke: Option<string>)

  /** One entry of the register's list; an entry may itself be `null`. */
  datatype Kjoretoydata = Kjoretoydata(
    godkjenning: Option<Godkjenning>, forstegangsregistrering: Option<Forstegangsregistrering>,
    kjoretoyId: Option<KjoretoyId>)

  datatype RegisterData = RegisterData(kjoretoydataListe: Option<seq<Option<Kjoretoydata>>>)

  /** How the call to the register ended: it raised an error, or it answered (possibly with an empty body). */
  datatype Upstream = Threw(message: string) | Answered(data: Option<RegisterData>)

  // ------------------------------------------------------- the endpoint

  /** The incoming request: its URL could not be parsed, or its `kjennemerke` query parameter. */
  datatype Query = InvalidUrl(reason: string) | Query(kjennemerke: Option<string>)

  /** The app's flat vehicle record. */
  datatype Vehicle = Vehicle(
    make: string, model: string, year: string, color: string, typebetegnelse: string,
    understellsnummer: string, registrationNumber: string, seats: int, weight: int, totalWeight: int)

  /** The JSON body: `success: true` with the vehicle, or `success: false` with a message. */
  datatype Body = Found(vehicle: Vehicle) | Failure(message: string, error: Option<string>)

  /** The GET request made to the register: its URL and its authorisation header. */
  datatype RegisterCall = RegisterCall(url: string, authorization: string)

  datatype Reply = Reply(status: nat, body: Body, call: Option<RegisterCall>)

  const RegisterUrl: string :=
    "https://www.vegvesen.no/ws/no/vegvesen/kjoretoy/felles/datautlevering/enkeltoppslag/kjoretoydata?kjennemerke="

  const MissingPlateMessage: string := "Missing license plate parameter"
  const MissingKeyMessage: string := "API key is not configured"
  const NotFoundMessage: string := "No vehicle data found"
  const RegisterErrorMessage: string := "Error fetching vehicle data from Vegvesen API"
  const InternalErrorMessage: string := "Internal server error"

  // -------------------------------------------------- JavaScript helpers

  /** The characters `\s` matches. */
  predicate IsSpace(c: char)
  {
    || c == '\t' || c == '\n' || c == '\U{000B}' || c == '\U{000C}' || c == '\r' || c == ' '
    || c == '\U{00A0}' || c == '\U{1680}' || ('\U{2000}' <= c <= '\U{200A}')
    || c == '\U{2028}' || c == '\U{2029}' || c == '\U{202F}' || c == '\U{205F}'
    || c == '\U{3000}' || c == '\U{FEFF}'
  }

  /** `s.replace(/\s+/g, "")`: every run of whitespace removed. */
  function StripWhitespace(s: string): (r: string)
    ensures |r| <= |s|
    ensures forall k :: 0 <= k < |r| ==> !IsSpace(r[k])
  {
    if s == [] then []
    else if IsSpace(s[0]) then StripWhitespace(s[1..])
    else [s[0]] + StripWhitespace(s[1..])
  }

  /** A text present and non-empty, else the fallback (`a || b`). */
  function OrElse(s: Option<string>, fallback: string): string
  {
    if s.Some? && s.value != "" then s.value else fallback
  }

  /** A number present and non-zero, else 0 (`n || 0`). */
  function OrZero(n: Option<int>): int
  {
    if n.Some? && n.value != 0 then n.value else 0
  }

  /** `s.substring(0, 4)`. */
  function FirstFour(s: string): string
  {
    if |s| <= 4 then s else s[..4]
  }

  function MapOption<T, U>(o: Option<T>, f: T -> U): Option<U>
  {
    if o.Some? then Some(f(o.value)) else None
  }

  /** `list?.[0]`. */
  function Head<T>(list: Option<seq<T>>): Option<T>
  {
    if list.Some? && |list.value| > 0 then Some(list.value[0]) else None
  }

  // --------------------------------------------------- optional chains

  function TekniskeDataOf(info: Option<Kjoretoydata>): Option<TekniskeData>
  {
    if info.Some? && info.value.godkjenning.Some? && info.value.godkjenning.value.tekniskGodkjenning.Some?
    then info.value.godkjenning.value.tekniskGodkjenning.value.tekniskeData
    else None
  }

  function GenereltOf(info: Option<Kjoretoydata>): Option<Generelt>
  {
    var data := TekniskeDataOf(info);
    if data.Some? then data.value.generelt else None
  }

  function KjoretoyIdOf(info: Option<Kjoretoydata>): Option<KjoretoyId>
  {
    if info.Some? then info.value.kjoretoyId else None
  }

  /** `registrertForstegangNorgeDato`, the first registration in Norway. */
  function NorwegianRegistrationDate(info: Option<Kjoretoydata>): Option<string>
  {
    if info.Some? && info.value.forstegangsregistrering.Some?
    then info.value.forstegangsregistrering.value.registrertForstegangNorgeDato
    else None
  }

  /** `forstegangRegistrertDato`, the first registration anywhere. */
  function FirstRegistrationDate(info: Option<Kjoretoydata>): Option<string>
  {
    if info.Some? && info.value.godkjenning.Some? && info.value.godkjenning.value.forstegangsGodkjenning.Some?
    then info.value.godkjenning.value.forstegangsGodkjenning.value.forstegangRegistrertDato
    else None
  }

  /** The year: the first four characters of the Norwegian registration date, else of the first registration date. */
  function YearOf(info: Option<Kjoretoydata>): string
  {
    OrElse(MapOption(NorwegianRegistrationDate(info), FirstFour),
           OrElse(MapOption(FirstRegistrationDate(info), FirstFour), ""))
  }

  function MakeOf(info: Option<Kjoretoydata>): string
  {
    var generelt := GenereltOf(info);
    var first := if generelt.Some? then Head(generelt.value.merke) else None;
    OrElse(if first.Some? then first.value.merke else None, "")
  }

  function ModelOf(info: Option<Kjoretoydata>): string
  {
    var generelt := GenereltOf(info);
    OrElse(if generelt.Some? then Head(generelt.value.handelsbetegnelse) else None, "")
  }

  function ColorOf(info: Option<Kjoretoydata>): string
  {
    var data := TekniskeDataOf(info);
    var body := if data.Some? then data.value.karosseriOgLasteplan else None;
    var first := if body.Some? then Head(body.value.rFarge) else None;
    OrElse(if first.Some? then first.value.kodeNavn else None, "")
  }

  function TypeOf(info: Option<Kjoretoydata>): string
  {
    var generelt := GenereltOf(info);
    OrElse(if generelt.Some? then generelt.value.typebetegnelse else None, "")
  }

  function ChassisNumberOf(info: Option<Kjoretoydata>): string
  {
    var id := KjoretoyIdOf(info);
    OrElse(if id.Some? then id.value.understellsnummer else None, "")
  }

  /** The register's plate without whitespace, else the requested plate as it was given. */
  function RegistrationNumberOf(info: Option<Kjoretoydata>, requested: string): string
  {
    var id := KjoretoyIdOf(info);
    OrElse(MapOption(if id.Some? then id.value.kjennemerke else None, StripWhitespace), requested)
  }

  function SeatsOf(info: Option<Kjoretoydata>): int
  {
    var data := TekniskeDataOf(info);
    var persons := if data.Some? then data.value.persontall else None;
    OrZero(if persons.Some? then persons.value.sitteplasserTotalt else None)
  }

  function WeightsOf(info: Option<Kjoretoydata>): Option<Vekter>
  {
    var data := TekniskeDataOf(info);
    if data.Some? then data.value.vekter else None
  }

  /** The flat record built from the first entry of the register's list. */
  function Transform(info: Option<Kjoretoydata>, requested: string): Vehicle
  {
    var weights := WeightsOf(info);
    Vehicle(
      make := MakeOf(info),
      model := ModelOf(info),
      year := YearOf(info),
      color := ColorOf(info),
      typebetegnelse := TypeOf(info),
      understellsnummer := ChassisNumberOf(info),
      registrationNumber := RegistrationNumberOf(info, requested),
      seats := SeatsOf(info),
      weight := OrZero(if weights.Some? then weights.value.egenvekt else None),
      totalWeight := OrZero(if weights.Some? then weights.value.tillattTotalvekt else None))
  }

  /** The register answered with at least one entry. */
  predicate HasEntries(data: Option<RegisterData>)
  {
    data.Some? && data.value.kjoretoydataListe.Some? && |data.value.kjoretoydataListe.value| > 0
  }

  /**
   * `GET`: a missing plate is refused before the key is looked at; without a
   * key nothing is sent; otherwise the register is asked for the plate with
   * its whitespace removed, and its answer decides between 500, 404 and 200.
   */
  function Get(query: Query, authKey: Option<string>, upstream: Upstream): (reply: Reply)
    ensures reply.status == 200 <==> reply.body.Found?
    ensures reply.call.Some? <==> query.Query? && OrElse(query.kjennemerke, "") != "" && OrElse(authKey, "") != ""
    ensures reply.call.Some? ==> reply.call.value.authorization == authKey.value
    ensures reply.status in {200, 400, 404, 500}
  {
    match query
    case InvalidUrl(reason) => Reply(500, Failure(InternalErrorMessage, Some(reason)), None)
    case Query(kjennemerke) =>
      if kjennemerke.None? || kjennemerke.value == "" then
        Reply(400, Failure(MissingPlateMessage, None), None)
      else if authKey.None? || authKey.value == "" then
        Reply(500, Failure(MissingKeyMessage, None), None)
      else
        var plate := kjennemerke.value;
        var call := Some(RegisterCall(RegisterUrl + StripWhitespace(plate), authKey.value));
        match upstream
        case Threw(message) => Reply(500, Failure(RegisterErrorMessage, Some(message)), call)
        case Answered(data) =>
          if !HasEntries(data) then Reply(404, Failure(NotFoundMessage, None), call)
          else Reply(200, Found(Transform(data.value.kjoretoydataListe.value[0], plate)), call)
  }

  // ------------------------------------------------------------ lemmas

  /** Removing whitespace distributes over concatenation. */
  lemma {:induction false} StripConcat(a: string, b: string)
    ensures StripWhitespace(a + b) == StripWhitespace(a) + StripWhitespace(b)
    decreases |a|
  {
    if a == [] {
      assert a + b == b;
    } else {
      assert (a + b)[0] == a[0];
      assert (a + b)[1..] == a[1..] + b;
      StripConcat(a[1..], b);
      if !IsSpace(a[0]) {
        assert StripWhitespace(a + b) == [a[0]] + (StripWhitespace(a[1..]) + StripWhitespace(b));
      }
    }
  }

  /** Text without whitespace is left as it is; so removing whitespace twice is removing it once. */
  lemma {:induction false} StripNothingToStrip(s: string)
    requires forall k :: 0 <= k < |s| ==> !IsSpace(s[k])
    ensures StripWhitespace(s) == s
    decreases |s|
  {
    if s != [] {
      StripNothingToStrip(s[1..]);
      assert s == [s[0]] + s[1..];
    }
  }

  lemma StripIdempotent(s: string)
    ensures StripWhitespace(StripWhitespace(s)) == StripWhitespace(s)
  {
    StripNothingToStrip(StripWhitespace(s));
  }

  /** Every non-space character is kept, in order: a space between two parts only joins them. */
  lemma StripJoinsAroundSpace(a: string, c: char, b: string)
    requires IsSpace(c)
    ensures StripWhitespace(a + [c] + b) == StripWhitespace(a) + StripWhitespace(b)
  {
    StripConcat(a + [c], b);
    StripConcat(a, [c]);
    assert [c][1..] == [];
    assert StripWhitespace([c]) == [];
    assert StripWhitespace(a + [c]) == StripWhitespace(a);
  }

  /** A missing or empty plate gives 400, whatever the key and the register would say. */
  lemma MissingPlateIsBadRequest(kjennemerke: Option<string>, authKey: Option<string>, upstream: Upstream)
    requires kjennemerke.None? || kjennemerke.value == ""
    ensures var reply := Get(Query(kjennemerke), authKey, upstream);
            reply.status == 400 && reply.body == Failure(MissingPlateMessage, None) && reply.call.None?
  {
  }

  /** With a plate but no key, the reply is 500 and the register is not called. */
  lemma MissingKeyIsServerError(plate: string, authKey: Option<string>, upstream: Upstream)
    requires plate != "" && (authKey.None? || authKey.value == "")
    ensures var reply := Get(Query(Some(plate)), authKey, upstream);
            reply.status == 500 && reply.body == Failure(MissingKeyMessage, None) && reply.call.None?
  {
  }

  /** The register is asked for the plate with all whitespace removed, and only for that. */
  lemma CallCarriesStrippedPlate(plate: string, key: string, upstream: Upstream)
    requires plate != "" && key != ""
    ensures var reply := Get(Query(Some(plate)), Some(key), upstream);
            && reply.call.Some?
            && |RegisterUrl| <= |reply.call.value.url|
            && reply.call.value.url[..|RegisterUrl|] == RegisterUrl
            && var sent := reply.call.value.url[|RegisterUrl|..];
               sent == StripWhitespace(plate) && forall k :: 0 <= k < |sent| ==> !IsSpace(sent[k])
  {
    var url := RegisterUrl + StripWhitespace(plate);
    assert url[|RegisterUrl|..] == StripWhitespace(plate);
  }

  /** An error raised by the call gives 500 with that error's message. */
  lemma RegisterErrorIsServerError(plate: string, key: string, message: string)
    requires plate != "" && key != ""
    ensures Get(Query(Some(plate)), Some(key), Threw(message)).status == 500
    ensures Get(Query(Some(plate)), Some(key), Threw(message)).body == Failure(RegisterErrorMessage, Some(message))
  {
  }

  /** No body, no list or an empty list gives 404; otherwise only the first entry is used. */
  lemma EntriesDecideFound(plate: string, key: string, data: Option<RegisterData>)
    requires plate != "" && key != ""
    ensures var reply := Get(Query(Some(plate)), Some(key), Answered(data));
            && (reply.status == 404 <==> !HasEntries(data))
            && (HasEntries(data) ==> reply.body == Found(Transform(data.value.kjoretoydataListe.value[0], plate)))
  {
  }

  /** Entries after the first never change the reply. */
  lemma OnlyFirstEntryCounts(plate: string, key: string, first: Option<Kjoretoydata>,
                             rest1: seq<Option<Kjoretoydata>>, rest2: seq<Option<Kjoretoydata>>)
    requires plate != "" && key != ""
    ensures Get(Query(Some(plate)), Some(key), Answered(Some(RegisterData(Some([first] + rest1)))))
         == Get(Query(Some(plate)), Some(key), Answered(Some(RegisterData(Some([first] + rest2)))))
  {
  }

  /**
   * The year is the first four characters of the Norwegian registration date
   * when that gives any text, else the first four of the first registration
   * date, else empty.
   */
  lemma YearFallback(info: Option<Kjoretoydata>)
    ensures var norway := NorwegianRegistrationDate(info);
            var first := FirstRegistrationDate(info);
            var year := YearOf(info);
            && (norway.Some? && norway.value != "" ==>
                  year == norway.value[..if |norway.value| < 4 then |norway.value| else 4])
            && ((norway.None? || norway.value == "") && first.Some? && first.value != "" ==>
                  year == first.value[..if |first.value| < 4 then |first.value| else 4])
            && ((norway.None? || norway.value == "") && (first.None? || first.value == "") ==> year == "")
            && |year| <= 4
  {
  }

  /**
   * The registration number: the register's plate with its whitespace removed
   * when that leaves any text, otherwise the requested plate as it was given.
   * For a request that reaches the register it is never empty.
   */
  lemma RegistrationNumberFallback(info: Option<Kjoretoydata>, requested: string)
    ensures var id := KjoretoyIdOf(info);
            var plate := if id.Some? then id.value.kjennemerke else None;
            var r := RegistrationNumberOf(info, requested);
            && r == (if plate.Some? && StripWhitespace(plate.value) != "" then StripWhitespace(plate.value) else requested)
            && (r != requested ==> forall k :: 0 <= k < |r| ==> !IsSpace(r[k]))
            && (requested != "" ==> r != "")
  {
  }

  /**
   * `make`, `model` and `typebetegnelse` come from the `generelt` group: each is
   * the register's text when present and non-empty (for the lists, their first
   * element), and `""` when the group, the list or the field is missing or empty.
   */
  lemma GeneralFieldsDefault(info: Option<Kjoretoydata>, requested: string)
    ensures var g := GenereltOf(info);
            var v := Transform(info, requested);
            && (g.None? ==> v.make == "" && v.model == "" && v.typebetegnelse == "")
            && (g.Some? ==>
                  var merke := g.value.merke;
                  var names := g.value.handelsbetegnelse;
                  var kind := g.value.typebetegnelse;
                  && v.make == (if merke.Some? && |merke.value| > 0 && merke.value[0].merke.Some?
                                then merke.value[0].merke.value else "")
                  && v.model == (if names.Some? && |names.value| > 0 then names.value[0] else "")
                  && v.typebetegnelse == (if kind.Some? then kind.value else ""))
  {
  }

  /**
   * `color`, `seats`, `weight` and `totalWeight` come from the technical data:
   * a present value is kept, and a missing group or field gives `""` or 0.
   */
  lemma TechnicalFieldsDefault(info: Option<Kjoretoydata>, requested: string)
    ensures var data := TekniskeDataOf(info);
            var v := Transform(info, requested);
            && (data.None? ==> v.color == "" && v.seats == 0 && v.weight == 0 && v.totalWeight == 0)
            && (data.Some? ==>
                  var body := data.value.karosseriOgLasteplan;
                  var persons := data.value.persontall;
                  var weights := data.value.vekter;
                  && v.color == (if body.Some? && body.value.rFarge.Some? && |body.value.rFarge.value| > 0
                                    && body.value.rFarge.value[0].kodeNavn.Some?
                                 then body.value.rFarge.value[0].kodeNavn.value else "")
                  && v.seats == (if persons.Some? && persons.value.sitteplasserTotalt.Some?
                                 then persons.value.sitteplasserTotalt.value else 0)
                  && v.weight == (if weights.Some? && weights.value.egenvekt.Some?
                                  then weights.value.egenvekt.value else 0)
                  && v.totalWeight == (if weights.Some? && weights.value.tillattTotalvekt.Some?
                                       then weights.value.tillattTotalvekt.value else 0))
  {
  }

  /** `understellsnummer` is the register's chassis number, or `""` when the id group or the field is missing. */
  lemma IdFieldsDefault(info: Option<Kjoretoydata>, requested: string)
    ensures var id := KjoretoyIdOf(info);
            var v := Transform(info, requested);
            && (id.None? ==> v.understellsnummer == "" && v.registrationNumber == requested)
            && (id.Some? ==> v.understellsnummer == (if id.value.understellsnummer.Some?
                                                     then id.value.understellsnummer.value else ""))
  {
  }

  /** A `null` first entry (or one with nothing filled in) gives the all-default record with the requested plate. */
  lemma MissingFieldsDefault(requested: string)
    ensures Transform(None, requested) == Vehicle("", "", "", "", "", "", requested, 0, 0, 0)
    ensures Transform(Some(Kjoretoydata(None, None, None)), requested)
         == Vehicle("", "", "", "", "", "", requested, 0, 0, 0)
  {
  }
}
