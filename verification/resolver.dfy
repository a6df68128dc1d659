/** Start-up resolution of the module's configuration subsections: each
    phase's settings are read, paired credentials are checked, and the auth
    type, method, request body type and forced response type strings are
    resolved through the module's lookup tables. */
module Resolver {
  import opened Wrappers
  import opened NameTable
  import M = HttpMethod
  import A = HttpAuth
  import B = HttpBody

  /** The lookup tables the resolver consults. They are defined outside this
      file, so the model takes them as parameters. */
  datatype Tables = Tables(
    methods: Table<M.Method>,              // method names
    authTypes: Table<A.AuthType>,          // auth type names
    bodyTypes: Table<B.BodyType>,          // canonical body type names
    contentTypes: Table<B.BodyType>,       // MIME content types
    supported: B.BodyType -> B.BodyType,   // support tag of each body type
    curlAuth: A.AuthType -> bool)          // auth types this libcurl build offers

  /** TLS settings, carried through unchanged. */
  datatype Tls = Tls(
    caFile: Option<string>, caPath: Option<string>,
    certificateFile: Option<string>, privateKeyFile: Option<string>,
    privateKeyPassword: Option<string>, randomFile: Option<string>,
    checkCert: bool, checkCertCn: bool, extractCertAttrs: bool)

  /** One phase's configuration. `name` is absent when the phase is not
      configured; the empty string stands for a string never set. */
  datatype Section = Section(
    name: Option<string>,
    uri: Option<string>, proxy: Option<string>,
    methodStr: string, httpMethod: M.Method,
    bodyStr: string, body: B.BodyType, data: Option<string>,
    forceToStr: Option<string>, forceTo: B.BodyType,
    authStr: string, auth: A.AuthType,
    username: Option<string>, password: Option<string>, requireAuth: bool,
    timeoutMs: nat, chunk: nat, tls: Tls)

  /** TLS settings as written in a subsection, before defaults. */
  datatype TlsItems = TlsItems(
    caFile: Option<string>, caPath: Option<string>,
    certificateFile: Option<string>, privateKeyFile: Option<string>,
    privateKeyPassword: Option<string>, randomFile: Option<string>,
    checkCert: Option<bool>, checkCertCn: Option<bool>, extractCertAttrs: Option<bool>)

  /** Settings as written in a subsection, before defaults. */
  datatype Items = Items(
    uri: Option<string>, proxy: Option<string>,
    httpMethod: Option<string>, body: Option<string>, data: Option<string>, forceTo: Option<string>,
    auth: Option<string>, username: Option<string>, password: Option<string>,
    requireAuth: Option<bool>, timeoutMs: Option<nat>, chunk: Option<nat>, tls: TlsItems)

  /** A subsection that the configuration parser either rejected or read. */
  datatype Subsection = Malformed | Present(items: Items)

  /** The module's configuration: subsections by name. */
  type Conf = map<string, Subsection>

  /** The two item lists: full phase sections, and the reduced list of the
      "xlat" section, which has no uri, method, body, data or force_to. */
  datatype ParserTable = SectionConfig | XlatConfig

  datatype ConfigError =
    | MalformedSection
    | CredentialsUnpaired
    | UnknownAuth | UnsupportedAuth
    | UnknownBody | UnsupportedBody | InvalidBody | UnavailableBody
    | UnknownForceTo | UnsupportedForceTo | InvalidForceTo

  /** The section as left behind, and the error that stopped parsing. */
  datatype Parsed = Parsed(config: Section, error: Option<ConfigError>)

  /** A zero-filled section, as the instance is allocated. */
  const Unset := Section(
    None, None, None, "", M.Unknown, "", B.Unknown, None, None, B.Unknown, "", A.Unknown,
    None, None, false, 0, 0, Tls(None, None, None, None, None, None, false, false, false))

  /** The "xlat" section's settings fixed before parsing. */
  const XlatPreset := Unset.(
    methodStr := "GET", body := B.None,
    bodyStr := "application/x-www-form-urlencoded", forceToStr := Some("plain"))

  function ApplyTls(items: TlsItems): Tls
  {
    Tls(items.caFile, items.caPath, items.certificateFile, items.privateKeyFile,
        items.privateKeyPassword, items.randomFile,
        items.checkCert.GetOr(true), items.checkCertCn.GetOr(true),
        items.extractCertAttrs.GetOr(false))
  }

  /** Reads a subsection's items over `preset` with the item list's defaults;
      items the list does not name keep their preset value. */
  function Apply(parser: ParserTable, preset: Section, items: Items): (c: Section)
    ensures parser == XlatConfig ==>
      c.uri == preset.uri && c.methodStr == preset.methodStr && c.bodyStr == preset.bodyStr
      && c.data == preset.data && c.forceToStr == preset.forceToStr
    ensures c.username == items.username && c.password == items.password
    ensures c.name == preset.name
  {
    var common := preset.(
      proxy := items.proxy, authStr := items.auth.GetOr("none"),
      username := items.username, password := items.password,
      requireAuth := items.requireAuth.GetOr(false), timeoutMs := items.timeoutMs.GetOr(4000),
      chunk := items.chunk.GetOr(0), tls := ApplyTls(items.tls));
    match parser
    case XlatConfig => common
    case SectionConfig =>
      common.(
        uri := Some(items.uri.GetOr("")), methodStr := items.httpMethod.GetOr("GET"),
        bodyStr := items.body.GetOr("none"), data := items.data, forceToStr := items.forceTo)
  }

  /** Body type lookup: the canonical names first, then MIME content types. */
  function LookupBodyType(t: Tables, s: string): (b: B.BodyType)
    ensures !HasName(t.bodyTypes, s) && !HasName(t.contentTypes, s) ==> b == B.Unknown
    ensures forall i :: (0 <= i < |t.bodyTypes| && SameName(t.bodyTypes[i].0, s) && NoEarlierName(t.bodyTypes, s, i)
                         && t.bodyTypes[i].1 != B.Unknown) ==> b == t.bodyTypes[i].1
    ensures Str2Int(t.bodyTypes, s, B.Unknown) == B.Unknown ==> b == Str2Int(t.contentTypes, s, B.Unknown)
  {
    var canonical := Str2Int(t.bodyTypes, s, B.Unknown);
    if canonical != B.Unknown then canonical else Str2Int(t.contentTypes, s, B.Unknown)
  }

  /** Support tags that forbid a request body type. */
  predicate BodyUsable(tag: B.BodyType)
  {
    tag != B.Unsupported && tag != B.Invalid && tag != B.Unavailable
  }

  /** Support tags that forbid a forced response type: being unavailable in
      this build is tolerated. */
  predicate ForceToUsable(tag: B.BodyType)
  {
    tag != B.Unsupported && tag != B.Invalid
  }

  predicate AuthAccepted(t: Tables, s: string)
  {
    var a := Str2Int(t.authTypes, s, A.Unknown);
    a != A.Unknown && (a == A.None || t.curlAuth(a))
  }

  predicate BodyAccepted(t: Tables, s: string)
  {
    var b := LookupBodyType(t, s);
    b != B.Unknown && BodyUsable(t.supported(b))
  }

  predicate ForceToAccepted(t: Tables, s: string)
  {
    var b := LookupBodyType(t, s);
    b != B.Unknown && ForceToUsable(t.supported(b))
  }

  /** The raw settings of a section that resolution accepts. */
  predicate Acceptable(t: Tables, c: Section)
  {
    && (c.username.Some? <==> c.password.Some?)
    && AuthAccepted(t, c.authStr)
    && (c.data.Some? || BodyAccepted(t, c.bodyStr))
    && (c.forceToStr.None? || ForceToAccepted(t, c.forceToStr.value))
  }

  /** A resolved section every later request can rely on. */
  predicate Resolved(t: Tables, s: Section)
  {
    && (s.username.Some? <==> s.password.Some?)
    && s.auth != A.Unknown && (s.auth == A.None || t.curlAuth(s.auth))
    && (s.data.None? ==> s.body != B.Unknown && BodyUsable(t.supported(s.body)))
    && (s.data.Some? ==> s.body == B.CustomXlat)
    && (s.forceToStr.Some? ==> s.forceTo != B.Unknown && ForceToUsable(t.supported(s.forceTo)))
  }

  /** Request body resolution. Without a `data` template the body string
      must name a usable body type; with one the body is the expanded
      template, and a canonical body name is turned into its content type. */
  function ResolveBody(t: Tables, c: Section): (r: Parsed)
    ensures c.data.None? ==> (r.error.None? <==> BodyAccepted(t, c.bodyStr))
    ensures c.data.None? ==> r.config.body == LookupBodyType(t, c.bodyStr) && r.config.bodyStr == c.bodyStr
    ensures c.data.None? && LookupBodyType(t, c.bodyStr) == B.Unknown ==> r.error == Some(UnknownBody)
    ensures c.data.None? && LookupBodyType(t, c.bodyStr) != B.Unknown ==>
      (t.supported(LookupBodyType(t, c.bodyStr)) == B.Unsupported ==> r.error == Some(UnsupportedBody))
      && (t.supported(LookupBodyType(t, c.bodyStr)) == B.Invalid ==> r.error == Some(InvalidBody))
      && (t.supported(LookupBodyType(t, c.bodyStr)) == B.Unavailable ==> r.error == Some(UnavailableBody))
    ensures c.data.Some? ==> r.error.None? && r.config.body == B.CustomXlat
    ensures c.data.Some? && Str2Int(t.bodyTypes, c.bodyStr, B.Unknown) == B.Unknown ==> r.config.bodyStr == c.bodyStr
    ensures c.data.Some? && !HasValue(t.contentTypes, Str2Int(t.bodyTypes, c.bodyStr, B.Unknown)) ==> r.config.bodyStr == c.bodyStr
    ensures forall i :: (c.data.Some? && 0 <= i < |t.contentTypes|
                         && Str2Int(t.bodyTypes, c.bodyStr, B.Unknown) != B.Unknown
                         && t.contentTypes[i].1 == Str2Int(t.bodyTypes, c.bodyStr, B.Unknown)
                         && NoEarlierValue(t.contentTypes, t.contentTypes[i].1, i))
                        ==> r.config.bodyStr == t.contentTypes[i].0
    ensures r.config == c.(body := r.config.body, bodyStr := r.config.bodyStr)
  {
    if c.data.None? then
      var body := LookupBodyType(t, c.bodyStr);
      var c' := c.(body := body);
      if body == B.Unknown then Parsed(c', Some(UnknownBody))
      else
        match t.supported(body)
        case Unsupported => Parsed(c', Some(UnsupportedBody))
        case Invalid => Parsed(c', Some(InvalidBody))
        case Unavailable => Parsed(c', Some(UnavailableBody))
        case _ => Parsed(c', None)
    else
      var c' := c.(body := B.CustomXlat);
      var canonical := Str2Int(t.bodyTypes, c.bodyStr, B.Unknown);
      if canonical != B.Unknown then Parsed(c'.(bodyStr := Int2Str(t.contentTypes, canonical, c.bodyStr)), None)
      else Parsed(c', None)
  }

  /** Forced response type resolution, when one is configured. */
  function ResolveForceTo(t: Tables, c: Section): (r: Parsed)
    ensures c.forceToStr.None? ==> r == Parsed(c, None)
    ensures c.forceToStr.Some? ==> (r.error.None? <==> ForceToAccepted(t, c.forceToStr.value))
    ensures c.forceToStr.Some? ==> r.config == c.(forceTo := LookupBodyType(t, c.forceToStr.value))
    ensures c.forceToStr.Some? && LookupBodyType(t, c.forceToStr.value) == B.Unknown ==> r.error == Some(UnknownForceTo)
    ensures c.forceToStr.Some? && LookupBodyType(t, c.forceToStr.value) != B.Unknown ==>
      (t.supported(LookupBodyType(t, c.forceToStr.value)) == B.Unsupported ==> r.error == Some(UnsupportedForceTo))
      && (t.supported(LookupBodyType(t, c.forceToStr.value)) == B.Invalid ==> r.error == Some(InvalidForceTo))
  {
    match c.forceToStr
    case None => Parsed(c, None)
    case Some(s) =>
      var forceTo := LookupBodyType(t, s);
      var c' := c.(forceTo := forceTo);
      if forceTo == B.Unknown then Parsed(c', Some(UnknownForceTo))
      else
        match t.supported(forceTo)
        case Unsupported => Parsed(c', Some(UnsupportedForceTo))
        case Invalid => Parsed(c', Some(InvalidForceTo))
        case _ => Parsed(c', None)
  }

  /** The checks and conversions that follow reading a present subsection,
      stopping at the first that fails. */
  function Resolve(t: Tables, c: Section): (r: Parsed)
    ensures r.error.None? <==> Acceptable(t, c)
    ensures r.error.None? ==> Resolved(t, r.config)
    ensures (c.username.Some? != c.password.Some?) ==> r.error == Some(CredentialsUnpaired)
    ensures ((c.username.Some? == c.password.Some?) && Str2Int(t.authTypes, c.authStr, A.Unknown) == A.Unknown)
              ==> r.error == Some(UnknownAuth)
    ensures ((c.username.Some? == c.password.Some?) && Str2Int(t.authTypes, c.authStr, A.Unknown) != A.Unknown
             && Str2Int(t.authTypes, c.authStr, A.Unknown) != A.None
             && !t.curlAuth(Str2Int(t.authTypes, c.authStr, A.Unknown)))
              ==> r.error == Some(UnsupportedAuth)
    ensures r.error.None? && !HasName(t.methods, c.methodStr) ==> r.config.httpMethod == M.Custom
    ensures r.config.name == c.name && r.config.username == c.username && r.config.password == c.password
    ensures r.config.data == c.data && r.config.forceToStr == c.forceToStr && r.config.methodStr == c.methodStr
    ensures r.error.None? ==>
              r.config == c.(auth := Str2Int(t.authTypes, c.authStr, A.Unknown),
                             httpMethod := Str2Int(t.methods, c.methodStr, M.Custom),
                             body := ResolveBody(t, c).config.body,
                             bodyStr := ResolveBody(t, c).config.bodyStr,
                             forceTo := if c.forceToStr.Some? then LookupBodyType(t, c.forceToStr.value) else c.forceTo)
    ensures ((c.username.Some? == c.password.Some?) && AuthAccepted(t, c.authStr) && ResolveBody(t, c).error.Some?)
              ==> r.error == ResolveBody(t, c).error
    ensures ((c.username.Some? == c.password.Some?) && AuthAccepted(t, c.authStr) && ResolveBody(t, c).error.None?)
              ==> r.error == ResolveForceTo(t, c).error
  {
    if c.username.Some? != c.password.Some? then Parsed(c, Some(CredentialsUnpaired))
    else
      var auth := Str2Int(t.authTypes, c.authStr, A.Unknown);
      var c1 := c.(auth := auth);
      if auth == A.Unknown then Parsed(c1, Some(UnknownAuth))
      else if auth != A.None && !t.curlAuth(auth) then Parsed(c1, Some(UnsupportedAuth))
      else
        var body := ResolveBody(t, c);
        var c2 := c1.(httpMethod := Str2Int(t.methods, c.methodStr, M.Custom),
                      body := body.config.body, bodyStr := body.config.bodyStr);
        if body.error.Some? then Parsed(c2, body.error)
        else
          var force := ResolveForceTo(t, c);
          Parsed(c2.(forceTo := force.config.forceTo), force.error)
  }

  /** `parse_sub_section`: an absent subsection leaves the phase unconfigured
      and is no error; a subsection the parser rejects leaves it unconfigured
      and is one; otherwise the phase takes the subsection's name and its
      settings are resolved. */
  function ParseSubSection(t: Tables, conf: Conf, parser: ParserTable, preset: Section, name: string): (r: Parsed)
    ensures name !in conf ==> r.error.None? && r.config == preset.(name := None)
    ensures name in conf && conf[name].Malformed? ==> r.error == Some(MalformedSection) && r.config.name.None?
    ensures name in conf && conf[name].Present? ==>
      r.config.name == Some(name) && (r.error.None? <==> Acceptable(t, Apply(parser, preset, conf[name].items)))
    ensures r.error.None? && r.config.name.Some? ==> Resolved(t, r.config)
  {
    if name !in conf then Parsed(preset.(name := None), None)
    else
      match conf[name]
      case Malformed => Parsed(preset.(name := None), Some(MalformedSection))
      case Present(items) => Resolve(t, Apply(parser, preset.(name := Some(name)), items))
  }

  /** The subsections in the order they are parsed. */
  const SectionNames: seq<string> := ["xlat", "authorize", "authenticate", "accounting", "post-auth"]

  /** Parsing of the `k`-th subsection: "xlat" with its reduced item list
      over its preset, the phases with the full list over a zeroed section.
      A subsection that parses is configured exactly when it is present. */
  function ParseNth(t: Tables, conf: Conf, k: nat): (r: Parsed)
    requires k < |SectionNames|
    ensures r.error.None? ==> (r.config.name.Some? <==> SectionNames[k] in conf)
    ensures r.error.None? && r.config.name.Some? ==> Resolved(t, r.config)
  {
    if k == 0 then ParseSubSection(t, conf, XlatConfig, XlatPreset, SectionNames[0])
    else ParseSubSection(t, conf, SectionConfig, Unset, SectionNames[k])
  }

  /** The per-phase configurations of one module instance. */
  datatype Instance = Instance(xlat: Section, authorize: Section, authenticate: Section,
                               accounting: Section, postAuth: Section)

  /** Parses the subsections from the `k`-th on, after `parsed` holds the
      earlier ones, and stops at the first failure. */
  function ParseFrom(t: Tables, conf: Conf, k: nat, parsed: seq<Section>): (r: Result<seq<Section>, (string, ConfigError)>)
    requires k == |parsed| <= |SectionNames|
    requires forall j :: 0 <= j < k ==> parsed[j] == ParseNth(t, conf, j).config
    decreases |SectionNames| - k
    ensures r.Success? <==> forall j :: k <= j < |SectionNames| ==> ParseNth(t, conf, j).error.None?
    ensures r.Success? ==> |r.value| == |SectionNames|
                           && forall j :: 0 <= j < |SectionNames| ==> r.value[j] == ParseNth(t, conf, j).config
    ensures r.Failure? ==>
              exists j :: (k <= j < |SectionNames| && r.error.0 == SectionNames[j]
                           && ParseNth(t, conf, j).error == Some(r.error.1)
                           && forall i :: k <= i < j ==> ParseNth(t, conf, i).error.None?)
  {
    if k == |SectionNames| then Success(parsed)
    else
      var p := ParseNth(t, conf, k);
      if p.error.Some? then Failure((SectionNames[k], p.error.value))
      else ParseFrom(t, conf, k + 1, parsed + [p.config])
  }

  /** Every configured phase is resolved, and a phase is configured exactly
      when its subsection is present. */
  predicate Ready(t: Tables, conf: Conf, inst: Instance)
  {
    var sections := [inst.xlat, inst.authorize, inst.authenticate, inst.accounting, inst.postAuth];
    forall k :: 0 <= k < |SectionNames| ==>
      (sections[k].name.Some? <==> SectionNames[k] in conf)
      && (sections[k].name.Some? ==> Resolved(t, sections[k]))
  }

  /** `mod_instantiate`: parse "xlat", "authorize", "authenticate",
      "accounting" and "post-auth" in that order, stopping at the first
      failure, which is reported with the subsection's name. */
  function Instantiate(t: Tables, conf: Conf): (r: Result<Instance, (string, ConfigError)>)
    ensures r.Success? <==> forall k :: 0 <= k < |SectionNames| ==> ParseNth(t, conf, k).error.None?
    ensures r.Failure? ==>
              exists k :: (0 <= k < |SectionNames| && r.error.0 == SectionNames[k]
                           && ParseNth(t, conf, k).error == Some(r.error.1)
                           && forall j :: 0 <= j < k ==> ParseNth(t, conf, j).error.None?)
    ensures r.Success? ==> Ready(t, conf, r.value)
    ensures r.Success? ==>
              && r.value.xlat == ParseNth(t, conf, 0).config
              && r.value.authorize == ParseNth(t, conf, 1).config
              && r.value.authenticate == ParseNth(t, conf, 2).config
              && r.value.accounting == ParseNth(t, conf, 3).config
              && r.value.postAuth == ParseNth(t, conf, 4).config
  {
    match ParseFrom(t, conf, 0, [])
    case Failure(e) => Failure(e)
    case Success(v) => Success(Instance(v[0], v[1], v[2], v[3], v[4]))
  }

  /** The "xlat" section's item list has no method, body, data or force_to:
      whatever the subsection says, it keeps its preset strings, so its body
      resolves from the form content type and its response is read as plain. */
  lemma XlatDefaults(t: Tables, conf: Conf)
    requires Instantiate(t, conf).Success?
    ensures var x := Instantiate(t, conf).value.xlat;
      && x.methodStr == "GET" && x.data.None? && x.forceToStr == Some("plain")
      && x.bodyStr == "application/x-www-form-urlencoded"
      && ("xlat" in conf ==> x.body == LookupBodyType(t, "application/x-www-form-urlencoded")
                             && x.forceTo == LookupBodyType(t, "plain"))
      && ("xlat" !in conf ==> x.name.None? && x.body == B.None)
  {
  }

  /** With a `data` template, a canonical body name is replaced by a content
      type that the content-type table maps back to the same body type. */
  lemma CustomBodyContentType(t: Tables, c: Section)
    requires c.data.Some?
    requires DistinctNames(t.contentTypes)
    requires HasValue(t.contentTypes, Str2Int(t.bodyTypes, c.bodyStr, B.Unknown))
    requires Str2Int(t.bodyTypes, c.bodyStr, B.Unknown) != B.Unknown
    ensures Str2Int(t.contentTypes, ResolveBody(t, c).config.bodyStr, B.Unknown) == Str2Int(t.bodyTypes, c.bodyStr, B.Unknown)
  {
  }

  /** A type this build cannot encode stops a request body but not a forced
      response type. */
  lemma UnavailableFatalOnlyForBody(t: Tables, c: Section, s: string)
    requires LookupBodyType(t, s) != B.Unknown
    requires t.supported(LookupBodyType(t, s)) == B.Unavailable
    ensures ResolveBody(t, c.(data := None, bodyStr := s)).error == Some(UnavailableBody)
    ensures ResolveForceTo(t, c.(forceToStr := Some(s))).error.None?
  {
  }

  /** An unrecognised method name is never an error: resolution succeeds or
      fails exactly as it would with any other method name. */
  lemma MethodNeverRejected(t: Tables, c: Section, m: string)
    ensures Resolve(t, c.(methodStr := m)).error == Resolve(t, c).error
  {
  }
}
