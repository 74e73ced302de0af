/** The request body `submit` builds from the posted form before it touches
    any credential (main.py, `submit`): a `submission` section with the URI,
    an optional `threatInfo` section (abuse type, confidence, justification)
    and an optional top-level `threatDiscovery` section. */
module Payload {
  import opened Wrappers
  import opened Text
  import opened JsonValues

  /** The posted form. `None` is a field the form does not carry; `labels`
      is `request.form.getlist("labels")`, empty when absent. */
  datatype Form = Form(
    parent: Option<string>,
    uri: Option<string>,
    abuseType: Option<string>,
    score: Option<string>,
    level: Option<string>,
    labels: seq<string>,
    comments: Option<string>,
    platform: Option<string>,
    regions: Option<string>,
    saKey: Option<string>)

  /** Python truthiness of `request.form.get(field)`: present and non-empty. */
  predicate Given(field: Option<string>) {
    field.Some? && field.value != ""
  }

  datatype Submission = Submission(uri: string)
  datatype ThreatConfidence = ThreatConfidence(score: Option<real>, level: Option<string>)
  datatype ThreatJustification = ThreatJustification(labels: Option<seq<string>>, comments: Option<seq<string>>)
  datatype ThreatInfo = ThreatInfo(
    abuseType: Option<string>,
    threatConfidence: Option<ThreatConfidence>,
    threatJustification: Option<ThreatJustification>)
  datatype ThreatDiscovery = ThreatDiscovery(platform: Option<string>, regionCodes: Option<seq<string>>)
  datatype Payload = Payload(
    submission: Submission,
    threatInfo: Option<ThreatInfo>,
    threatDiscovery: Option<ThreatDiscovery>)

  /** `[r.strip().upper() for r in pieces if r.strip()]`. */
  function CodesOf(pieces: seq<string>): seq<string>
  {
    if pieces == [] then []
    else
      var head := Strip(pieces[0]);
      (if head != "" then [Upper(head)] else []) + CodesOf(pieces[1..])
  }

  /** The region codes of the `regions` field: its comma-separated pieces,
      stripped and upper-cased, blank pieces dropped. */
  function RegionCodes(regions: string): seq<string>
  {
    CodesOf(Split(regions, ','))
  }

  /** A code is what is left of a piece with something in it once stripped. */
  predicate IsCode(code: string) {
    && code != ""
    && !IsSpace(code[0]) && !IsSpace(code[|code| - 1])
    && ',' !in code
    && forall i :: 0 <= i < |code| ==> !('a' <= code[i] <= 'z')
  }

  lemma UpperKeepsSpace(c: char)
    ensures IsSpace(UpperChar(c)) == IsSpace(c)
    ensures (UpperChar(c) == ',') == (c == ',')
  {
  }

  /** A piece without commas that is not blank gives a well-formed code. */
  lemma PieceCode(piece: string)
    requires ',' !in piece && Strip(piece) != ""
    ensures IsCode(Upper(Strip(piece)))
  {
    var head := Strip(piece);
    var code := Upper(head);
    StripSpec(piece);
    var i, j :| 0 <= i <= j <= |piece| && head == piece[i..j];
    forall m | 0 <= m < |head| ensures code[m] != ',' {
      assert head[m] == piece[i + m];
      UpperKeepsSpace(head[m]);
    }
    UpperKeepsSpace(head[0]);
    UpperKeepsSpace(head[|head| - 1]);
  }

  /** The codes are, in order, the upper-cased stripped pieces that are not
      blank: one code per non-blank piece, and each is a well-formed code. */
  lemma {:induction false} CodesOfSpec(pieces: seq<string>)
    requires forall k :: 0 <= k < |pieces| ==> ',' !in pieces[k]
    ensures |CodesOf(pieces)| == |NonBlank(pieces)|
    ensures forall k :: 0 <= k < |CodesOf(pieces)| ==>
              CodesOf(pieces)[k] == Upper(Strip(NonBlank(pieces)[k])) && IsCode(CodesOf(pieces)[k])
  {
    if pieces != [] {
      CodesOfSpec(pieces[1..]);
      var codes, rest := CodesOf(pieces), CodesOf(pieces[1..]);
      var kept, restKept := NonBlank(pieces), NonBlank(pieces[1..]);
      if Strip(pieces[0]) != "" {
        PieceCode(pieces[0]);
        assert codes == [Upper(Strip(pieces[0]))] + rest;
        assert kept == [pieces[0]] + restKept;
        forall k | 1 <= k < |codes|
          ensures codes[k] == Upper(Strip(kept[k])) && IsCode(codes[k])
        {
          assert codes[k] == rest[k - 1] && kept[k] == restKept[k - 1];
        }
      } else {
        assert codes == rest && kept == restKept;
      }
    }
  }

  /** The pieces whose stripped form is not empty, in order. */
  function NonBlank(pieces: seq<string>): seq<string> {
    if pieces == [] then []
    else (if Strip(pieces[0]) != "" then [pieces[0]] else []) + NonBlank(pieces[1..])
  }

  /** Every region code is a well-formed code, and there is exactly one per
      comma-separated piece of `regions` that is not blank. */
  lemma RegionCodesSpec(regions: string)
    ensures |RegionCodes(regions)| == |NonBlank(Split(regions, ','))|
    ensures forall k :: 0 <= k < |RegionCodes(regions)| ==>
              && RegionCodes(regions)[k] == Upper(Strip(NonBlank(Split(regions, ','))[k]))
              && IsCode(RegionCodes(regions)[k])
  {
    JoinSplit(regions, ',');
    CodesOfSpec(Split(regions, ','));
  }

  /** The reference definition of the payload: each section is present
      exactly when one of its fields is given, `score` wins over `level`,
      and a `score` that does not parse as a float fails the whole build
      with the parser's error text. */
  function PayloadOf(form: Form, uri: string, parseFloat: string -> Result<real, string>): Result<Payload, string>
  {
    if Given(form.score) && parseFloat(form.score.value).Failure? then
      Failure(parseFloat(form.score.value).error)
    else
      var abuseType := if Given(form.abuseType) then form.abuseType else None;
      var confidence :=
        if Given(form.score) then Some(ThreatConfidence(Some(parseFloat(form.score.value).value), None))
        else if Given(form.level) then Some(ThreatConfidence(None, form.level))
        else None;
      var justification :=
        if form.labels != [] || Given(form.comments) then
          Some(ThreatJustification(
            if form.labels != [] then Some(form.labels) else None,
            if Given(form.comments) then Some([form.comments.value]) else None))
        else None;
      var info :=
        if abuseType.None? && confidence.None? && justification.None? then None
        else Some(ThreatInfo(abuseType, confidence, justification));
      var discovery :=
        if Given(form.platform) || Given(form.regions) then
          Some(ThreatDiscovery(
            if Given(form.platform) then form.platform else None,
            if Given(form.regions) then Some(RegionCodes(form.regions.value)) else None))
        else None;
      Success(Payload(Submission(uri), info, discovery))
  }

  /** An empty `threatInfo`, as `payload.setdefault("threatInfo", {})` creates it. */
  function InfoOrEmpty(info: Option<ThreatInfo>): ThreatInfo {
    info.GetOr(ThreatInfo(None, None, None))
  }

  /** `submit`'s payload construction, step by step as the handler does it:
      each optional field adds to the sections that `setdefault` creates on
      first use. */
  method BuildPayload(form: Form, uri: string, parseFloat: string -> Result<real, string>)
    returns (r: Result<Payload, string>)
    ensures r == PayloadOf(form, uri, parseFloat)
  {
    var info: Option<ThreatInfo> := None;
    if Given(form.abuseType) {
      info := Some(InfoOrEmpty(info).(abuseType := form.abuseType));
    }
    if Given(form.score) {
      var parsed := parseFloat(form.score.value);
      if parsed.Failure? {
        return Failure(parsed.error);
      }
      var ti := InfoOrEmpty(info);
      var tc := ti.threatConfidence.GetOr(ThreatConfidence(None, None));
      info := Some(ti.(threatConfidence := Some(tc.(score := Some(parsed.value)))));
    } else if Given(form.level) {
      var ti := InfoOrEmpty(info);
      var tc := ti.threatConfidence.GetOr(ThreatConfidence(None, None));
      info := Some(ti.(threatConfidence := Some(tc.(level := form.level))));
    }
    if form.labels != [] || Given(form.comments) {
      var tj := ThreatJustification(None, None);
      if form.labels != [] {
        tj := tj.(labels := Some(form.labels));
      }
      if Given(form.comments) {
        tj := tj.(comments := Some([form.comments.value]));
      }
      info := Some(InfoOrEmpty(info).(threatJustification := Some(tj)));
    }
    var discovery: Option<ThreatDiscovery> := None;
    if Given(form.platform) || Given(form.regions) {
      var td := ThreatDiscovery(None, None);
      if Given(form.platform) {
        td := td.(platform := form.platform);
      }
      if Given(form.regions) {
        td := td.(regionCodes := Some(RegionCodes(form.regions.value)));
      }
      discovery := Some(td);
    }
    r := Success(Payload(Submission(uri), info, discovery));
  }

  /** The payload as the JSON object sent on the wire and stored, keys in
      the order the handler inserts them. */
  function ToJson(p: Payload): Json {
    Obj([("submission", Obj([("uri", Str(p.submission.uri))]))]
        + (if p.threatInfo.Some? then [("threatInfo", InfoJson(p.threatInfo.value))] else [])
        + (if p.threatDiscovery.Some? then [("threatDiscovery", DiscoveryJson(p.threatDiscovery.value))] else []))
  }

  function Strs(xs: seq<string>): (js: seq<Json>)
    ensures |js| == |xs| && forall i :: 0 <= i < |xs| ==> js[i] == Str(xs[i])
  {
    if xs == [] then [] else [Str(xs[0])] + Strs(xs[1..])
  }

  function InfoJson(ti: ThreatInfo): Json {
    Obj((if ti.abuseType.Some? then [("abuseType", Str(ti.abuseType.value))] else [])
        + (if ti.threatConfidence.Some? then [("threatConfidence", ConfidenceJson(ti.threatConfidence.value))] else [])
        + (if ti.threatJustification.Some? then [("threatJustification", JustificationJson(ti.threatJustification.value))] else []))
  }

  function ConfidenceJson(tc: ThreatConfidence): Json {
    Obj((if tc.score.Some? then [("score", Num(tc.score.value))] else [])
        + (if tc.level.Some? then [("level", Str(tc.level.value))] else []))
  }

  function JustificationJson(tj: ThreatJustification): Json {
    Obj((if tj.labels.Some? then [("labels", Arr(Strs(tj.labels.value)))] else [])
        + (if tj.comments.Some? then [("comments", Arr(Strs(tj.comments.value)))] else []))
  }

  function DiscoveryJson(td: ThreatDiscovery): Json {
    Obj((if td.platform.Some? then [("platform", Str(td.platform.value))] else [])
        + (if td.regionCodes.Some? then [("regionCodes", Arr(Strs(td.regionCodes.value)))] else []))
  }

  /** Nothing optional given: the payload is exactly
      `{"submission": {"uri": uri}}`. */
  lemma OnlyUriPayload(form: Form, uri: string, parseFloat: string -> Result<real, string>)
    requires !Given(form.abuseType) && !Given(form.score) && !Given(form.level)
    requires form.labels == [] && !Given(form.comments)
    requires !Given(form.platform) && !Given(form.regions)
    ensures PayloadOf(form, uri, parseFloat).Success?
    ensures ToJson(PayloadOf(form, uri, parseFloat).value) == Obj([("submission", Obj([("uri", Str(uri))]))])
  {
  }

  /** A score that does not parse is the only way the build fails. */
  lemma ScoreParseFailure(form: Form, uri: string, parseFloat: string -> Result<real, string>)
    ensures PayloadOf(form, uri, parseFloat).Failure?
            <==> Given(form.score) && parseFloat(form.score.value).Failure?
  {
  }

  /** `threatInfo` is there exactly when one of its five fields is given. */
  lemma ThreatInfoPresence(form: Form, uri: string, parseFloat: string -> Result<real, string>)
    requires PayloadOf(form, uri, parseFloat).Success?
    ensures PayloadOf(form, uri, parseFloat).value.submission.uri == uri
    ensures PayloadOf(form, uri, parseFloat).value.threatInfo.Some?
            <==> Given(form.abuseType) || Given(form.score) || Given(form.level)
                 || form.labels != [] || Given(form.comments)
  {
  }

  /** A given score is sent as the parsed float and the level is then
      dropped; the level is sent only when no score is given; never both. */
  lemma ConfidencePriority(form: Form, uri: string, parseFloat: string -> Result<real, string>)
    requires PayloadOf(form, uri, parseFloat).Success?
    ensures var info := PayloadOf(form, uri, parseFloat).value.threatInfo;
            && (Given(form.score) ==>
                  info.Some? && info.value.threatConfidence
                  == Some(ThreatConfidence(Some(parseFloat(form.score.value).value), None)))
            && (!Given(form.score) && Given(form.level) ==>
                  info.Some? && info.value.threatConfidence == Some(ThreatConfidence(None, form.level)))
            && (!Given(form.score) && !Given(form.level) ==>
                  info.None? || info.value.threatConfidence.None?)
            && (info.Some? && info.value.threatConfidence.Some? ==>
                  !(info.value.threatConfidence.value.score.Some? && info.value.threatConfidence.value.level.Some?))
  {
  }

  /** `threatJustification` sits under `threatInfo` exactly when labels or
      comments are given; `labels` is the list unchanged, `comments` the
      one-element list of the unstripped comment. */
  lemma JustificationPresence(form: Form, uri: string, parseFloat: string -> Result<real, string>)
    requires PayloadOf(form, uri, parseFloat).Success?
    ensures var info := PayloadOf(form, uri, parseFloat).value.threatInfo;
            && ((info.Some? && info.value.threatJustification.Some?) <==> form.labels != [] || Given(form.comments))
            && (info.Some? && info.value.threatJustification.Some? ==>
                  && (info.value.threatJustification.value.labels.Some? <==> form.labels != [])
                  && (form.labels != [] ==> info.value.threatJustification.value.labels.value == form.labels)
                  && (info.value.threatJustification.value.comments.Some? <==> Given(form.comments))
                  && (Given(form.comments) ==> info.value.threatJustification.value.comments.value == [form.comments.value]))
  {
  }

  /** `threatDiscovery` is a top-level section, there exactly when platform
      or regions is given; `regionCodes` is there whenever `regions` is
      non-empty, even when every piece is blank and the list is `[]`. */
  lemma DiscoveryPresence(form: Form, uri: string, parseFloat: string -> Result<real, string>)
    requires PayloadOf(form, uri, parseFloat).Success?
    ensures var td := PayloadOf(form, uri, parseFloat).value.threatDiscovery;
            && (td.Some? <==> Given(form.platform) || Given(form.regions))
            && (td.Some? ==>
                  && (td.value.platform.Some? <==> Given(form.platform))
                  && (Given(form.platform) ==> td.value.platform == form.platform)
                  && (td.value.regionCodes.Some? <==> Given(form.regions))
                  && (Given(form.regions) ==> td.value.regionCodes.value == RegionCodes(form.regions.value)))
  {
  }

  /** No field name in `fields` is `key`, nor any key nested in their values. */
  predicate FieldsLack(fields: seq<(string, Json)>, key: string) {
    forall i :: 0 <= i < |fields| ==> fields[i].0 != key && !HasKeyAnywhere(fields[i].1, key)
  }

  lemma FieldsLackConcat(a: seq<(string, Json)>, b: seq<(string, Json)>, key: string)
    requires FieldsLack(a, key) && FieldsLack(b, key)
    ensures FieldsLack(a + b, key)
  {
    forall i | 0 <= i < |a + b| ensures (a + b)[i].0 != key && !HasKeyAnywhere((a + b)[i].1, key) {
      if i >= |a| {
        assert (a + b)[i] == b[i - |a|];
      }
    }
  }

  lemma StrsLack(xs: seq<string>, key: string)
    ensures !HasKeyAnywhere(Arr(Strs(xs)), key)
  {
  }

  lemma InfoLacksJustification(ti: ThreatInfo)
    requires ti.threatJustification.None?
    ensures !HasKeyAnywhere(InfoJson(ti), "threatJustification")
  {
    var key := "threatJustification";
    var a := if ti.abuseType.Some? then [("abuseType", Str(ti.abuseType.value))] else [];
    var c := if ti.threatConfidence.Some? then [("threatConfidence", ConfidenceJson(ti.threatConfidence.value))] else [];
    if ti.threatConfidence.Some? {
      var tc := ti.threatConfidence.value;
      var s := if tc.score.Some? then [("score", Num(tc.score.value))] else [];
      var l := if tc.level.Some? then [("level", Str(tc.level.value))] else [];
      FieldsLackConcat(s, l, key);
    }
    FieldsLackConcat(a, c, key);
    assert InfoJson(ti) == Obj(a + c + []);
    assert a + c + [] == a + c;
  }

  lemma DiscoveryLacks(td: ThreatDiscovery, key: string)
    requires key != "platform" && key != "regionCodes"
    ensures !HasKeyAnywhere(DiscoveryJson(td), key)
  {
    var p := if td.platform.Some? then [("platform", Str(td.platform.value))] else [];
    var r := if td.regionCodes.Some? then [("regionCodes", Arr(Strs(td.regionCodes.value)))] else [];
    if td.regionCodes.Some? {
      StrsLack(td.regionCodes.value, key);
    }
    FieldsLackConcat(p, r, key);
  }

  /** Without labels or comments no `threatJustification` key appears
      anywhere in the JSON sent. */
  lemma {:induction false} NoJustificationKey(form: Form, uri: string, parseFloat: string -> Result<real, string>)
    requires PayloadOf(form, uri, parseFloat).Success?
    requires form.labels == [] && !Given(form.comments)
    ensures !HasKeyAnywhere(ToJson(PayloadOf(form, uri, parseFloat).value), "threatJustification")
  {
    var key := "threatJustification";
    var p := PayloadOf(form, uri, parseFloat).value;
    var s := [("submission", Obj([("uri", Str(p.submission.uri))]))];
    var i := if p.threatInfo.Some? then [("threatInfo", InfoJson(p.threatInfo.value))] else [];
    var d := if p.threatDiscovery.Some? then [("threatDiscovery", DiscoveryJson(p.threatDiscovery.value))] else [];
    assert FieldsLack(Obj([("uri", Str(p.submission.uri))]).fields, key);
    if p.threatInfo.Some? {
      InfoLacksJustification(p.threatInfo.value);
    }
    if p.threatDiscovery.Some? {
      DiscoveryLacks(p.threatDiscovery.value, key);
    }
    FieldsLackConcat(s, i, key);
    FieldsLackConcat(s + i, d, key);
    assert ToJson(p) == Obj(s + i + d);
  }

  /** Every value in `fields` is free of empty objects. */
  predicate FieldsFull(fields: seq<(string, Json)>) {
    forall i :: 0 <= i < |fields| ==> NoEmptyObject(fields[i].1)
  }

  lemma FieldsFullConcat(a: seq<(string, Json)>, b: seq<(string, Json)>)
    requires FieldsFull(a) && FieldsFull(b)
    ensures FieldsFull(a + b)
  {
    forall i | 0 <= i < |a + b| ensures NoEmptyObject((a + b)[i].1) {
      if i >= |a| {
        assert (a + b)[i] == b[i - |a|];
      }
    }
  }

  lemma StrsFull(xs: seq<string>)
    ensures NoEmptyObject(Arr(Strs(xs)))
  {
  }

  lemma ConfidenceFull(tc: ThreatConfidence)
    requires tc.score.Some? || tc.level.Some?
    ensures NoEmptyObject(ConfidenceJson(tc))
  {
    var s := if tc.score.Some? then [("score", Num(tc.score.value))] else [];
    var l := if tc.level.Some? then [("level", Str(tc.level.value))] else [];
    FieldsFullConcat(s, l);
  }

  lemma JustificationFull(tj: ThreatJustification)
    requires tj.labels.Some? || tj.comments.Some?
    ensures NoEmptyObject(JustificationJson(tj))
  {
    var l := if tj.labels.Some? then [("labels", Arr(Strs(tj.labels.value)))] else [];
    var c := if tj.comments.Some? then [("comments", Arr(Strs(tj.comments.value)))] else [];
    if tj.labels.Some? {
      StrsFull(tj.labels.value);
    }
    if tj.comments.Some? {
      StrsFull(tj.comments.value);
    }
    FieldsFullConcat(l, c);
  }

  lemma InfoFull(ti: ThreatInfo)
    requires ti.abuseType.Some? || ti.threatConfidence.Some? || ti.threatJustification.Some?
    requires ti.threatConfidence.Some? ==> ti.threatConfidence.value.score.Some? || ti.threatConfidence.value.level.Some?
    requires ti.threatJustification.Some? ==> ti.threatJustification.value.labels.Some? || ti.threatJustification.value.comments.Some?
    ensures NoEmptyObject(InfoJson(ti))
  {
    var a := if ti.abuseType.Some? then [("abuseType", Str(ti.abuseType.value))] else [];
    var c := if ti.threatConfidence.Some? then [("threatConfidence", ConfidenceJson(ti.threatConfidence.value))] else [];
    var j := if ti.threatJustification.Some? then [("threatJustification", JustificationJson(ti.threatJustification.value))] else [];
    if ti.threatConfidence.Some? {
      ConfidenceFull(ti.threatConfidence.value);
    }
    if ti.threatJustification.Some? {
      JustificationFull(ti.threatJustification.value);
    }
    FieldsFullConcat(a, c);
    FieldsFullConcat(a + c, j);
  }

  lemma DiscoveryFull(td: ThreatDiscovery)
    requires td.platform.Some? || td.regionCodes.Some?
    ensures NoEmptyObject(DiscoveryJson(td))
  {
    var p := if td.platform.Some? then [("platform", Str(td.platform.value))] else [];
    var r := if td.regionCodes.Some? then [("regionCodes", Arr(Strs(td.regionCodes.value)))] else [];
    if td.regionCodes.Some? {
      StrsFull(td.regionCodes.value);
    }
    FieldsFullConcat(p, r);
  }

  /** Composition is additive: no object in the JSON sent is `{}` (an empty
      `regionCodes` list is a list, not an object). */
  lemma {:induction false} NoEmptySections(form: Form, uri: string, parseFloat: string -> Result<real, string>)
    requires PayloadOf(form, uri, parseFloat).Success?
    ensures NoEmptyObject(ToJson(PayloadOf(form, uri, parseFloat).value))
  {
    var p := PayloadOf(form, uri, parseFloat).value;
    var s := [("submission", Obj([("uri", Str(p.submission.uri))]))];
    var i := if p.threatInfo.Some? then [("threatInfo", InfoJson(p.threatInfo.value))] else [];
    var d := if p.threatDiscovery.Some? then [("threatDiscovery", DiscoveryJson(p.threatDiscovery.value))] else [];
    assert NoEmptyObject(Obj([("uri", Str(p.submission.uri))]));
    if p.threatInfo.Some? {
      InfoFull(p.threatInfo.value);
    }
    if p.threatDiscovery.Some? {
      DiscoveryFull(p.threatDiscovery.value);
    }
    FieldsFullConcat(s, i);
    FieldsFullConcat(s + i, d);
    assert ToJson(p) == Obj(s + i + d);
  }

  /** `strip()` on the pieces of the examples below. */
  lemma StripPieces()
    ensures Strip(" us") == "us" && Strip(" fr ") == "fr"
    ensures Strip("") == "" && Strip(" ") == ""
  {
    assert " us" == " " + "us" + "";
    StripUnique(" ", "us", "");
    assert " fr " == " " + "fr" + " ";
    StripUnique(" ", "fr", " ");
    StripEmptyIffAllSpace("");
    StripEmptyIffAllSpace(" ");
  }

  /** `upper()` on the stripped pieces. */
  lemma UpperPieces()
    ensures Upper("us") == "US" && Upper("fr") == "FR"
  {
  }

  lemma CodesOfKept(piece: string, rest: seq<string>, code: string)
    requires Strip(piece) != "" && Upper(Strip(piece)) == code
    ensures CodesOf([piece] + rest) == [code] + CodesOf(rest)
  {
    assert ([piece] + rest)[1..] == rest;
  }

  lemma CodesOfDropped(piece: string, rest: seq<string>)
    requires Strip(piece) == ""
    ensures CodesOf([piece] + rest) == CodesOf(rest)
  {
    assert ([piece] + rest)[1..] == rest;
  }

  /** `" us, fr ,".split(",")`: three pieces, the last one empty. */
  lemma SplitExample()
    ensures Split(" us, fr ,", ',') == [" us", " fr ", ""]
  {
    var pieces := [" us", " fr ", ""];
    assert Join(pieces[2..], ',') == "";
    assert Join(pieces[1..], ',') == " fr ,";
    assert Join(pieces, ',') == " us, fr ,";
    SplitJoin(pieces, ',');
  }

  /** The comprehension over those pieces keeps the two codes. */
  lemma CodesOfExample()
    ensures CodesOf([" us", " fr ", ""]) == ["US", "FR"]
  {
    var pieces := [" us", " fr ", ""];
    StripPieces();
    UpperPieces();
    CodesOfDropped("", []);
    assert [""] + [] == pieces[2..];
    CodesOfKept(" fr ", pieces[2..], "FR");
    assert [" fr "] + pieces[2..] == pieces[1..];
    CodesOfKept(" us", pieces[1..], "US");
    assert [" us"] + pieces[1..] == pieces;
  }

  /** The handler's region parsing on `" us, fr ,"`: `["US", "FR"]`. */
  lemma RegionCodesExample()
    ensures RegionCodes(" us, fr ,") == ["US", "FR"]
  {
    SplitExample();
    CodesOfExample();
  }

  /** And on `" , "`: the empty list, which is still sent. */
  lemma RegionCodesBlankExample()
    ensures RegionCodes(" , ") == []
  {
    var blanks := [" ", " "];
    assert Join(blanks[1..], ',') == " ";
    assert Join(blanks, ',') == " , ";
    SplitJoin(blanks, ',');
    StripPieces();
    CodesOfDropped(" ", []);
    assert [" "] + [] == blanks[1..];
    CodesOfDropped(" ", blanks[1..]);
    assert [" "] + blanks[1..] == blanks;
  }
}
