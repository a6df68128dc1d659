/** The HTTP request vocabularies that section settings resolve into. The
    enumerations follow the REST module's rest.h header, which is not part of
    this model; only the distinguished values the resolver tests matter. */

/** `http_method_t`. */
module HttpMethod {
  datatype Method = Unknown | Get | Post | Put | Patch | Delete | Custom
}

/** `http_auth_type_t`: the authentication schemes libcurl can be asked for. */
module HttpAuth {
  datatype AuthType =
    | Unknown | None | TlsSrp | Basic | Digest | DigestIe
    | GssNegotiate | Ntlm | NtlmWb | Any | AnySafe
}

/** `http_body_type_t`. The first four values double as the support tags of
    the per-type support table: a supported type maps to itself there. */
module HttpBody {
  datatype BodyType =
    | Unknown | Unsupported | Unavailable | Invalid
    | None | CustomXlat | CustomLiteral
    | Post | Json | Xml | Yaml | Html | Plain
}
