/**
 * The validator's constant tables: registry values it checks membership in,
 * the response and server types a run may ask for, and the specification
 * documents its results cite.
 */
module Tables {
  import opened Wrappers

  /** `values.eventAction`: the registered event actions. */
  const EventActions: seq<string> := [
    "deletion",
    "enum validation expiration",
    "expiration",
    "last changed",
    "last update of RDAP database",
    "locked",
    "registrar expiration",
    "registration",
    "reinstantiation",
    "reregistration",
    "transfer",
    "unlocked"
  ]

  /** `values.noticeAndRemarkType`: the registered notice and remark types. */
  const NoticeAndRemarkTypes: seq<string> := [
    "object redacted due to authorization",
    "object truncated due to authorization",
    "object truncated due to excessive load",
    "object truncated due to unexplainable reasons",
    "result set truncated due to authorization",
    "result set truncated due to excessive load",
    "result set truncated due to unexplainable reasons"
  ]

  /** `values.role`: the registered entity roles. */
  const Roles: seq<string> := [
    "abuse",
    "administrative",
    "billing",
    "noc",
    "notifications",
    "proxy",
    "registrant",
    "registrar",
    "reseller",
    "sponsor",
    "technical"
  ]

  /** `values.status`: the registered status values. */
  const StatusValues: seq<string> := [
    "active",
    "add period",
    "administrative",
    "associated",
    "auto renew period",
    "client delete prohibited",
    "client hold",
    "client renew prohibited",
    "client transfer prohibited",
    "client update prohibited",
    "delete prohibited",
    "inactive",
    "locked",
    "obscured",
    "pending create",
    "pending delete",
    "pending renew",
    "pending restore",
    "pending transfer",
    "pending update",
    "private",
    "proxy",
    "redemption period",
    "removed",
    "renew period",
    "renew prohibited",
    "reserved",
    "server delete prohibited",
    "server hold",
    "server renew prohibited",
    "server transfer prohibited",
    "server update prohibited",
    "transfer period",
    "transfer prohibited",
    "update prohibited",
    "validated"
  ]

  /** `extensions`: the registered RDAP extension identifiers. */
  const Extensions: seq<string> := [
    "arin_originas0",
    "artRecord",
    "cidr0",
    "farv1",
    "fred",
    "icann_rdap_response_profile_0",
    "icann_rdap_technical_implementation_guide_0",
    "icann_rdap_response_profile_1",
    "icann_rdap_technical_implementation_guide_1",
    "nro_rdap_profile_0",
    "nro_rdap_profile_asn_flat_0",
    "nro_rdap_profile_asn_hierarchical_0",
    "paging",
    "platformNS",
    "rdap_objectTag",
    "redacted",
    "redirect_with_content",
    "regType",
    "reverse_search",
    "sorting",
    "subsetting"
  ]

  /** `objectTypes`: the permitted values of `objectClassName`. */
  const ObjectTypes: seq<string> := [
    "domain",
    "ip network",
    "autnum",
    "nameserver",
    "entity"
  ]

  /** `JCardPropertyTypes`: the registered vCard property names. */
  const JCardPropertyTypes: seq<string> := [
    "SOURCE", "KIND", "XML", "FN",
    "N", "NICKNAME", "PHOTO", "BDAY",
    "ANNIVERSARY", "GENDER", "ADR", "TEL",
    "EMAIL", "IMPP", "LANG", "TZ",
    "GEO", "TITLE", "ROLE", "LOGO",
    "ORG", "MEMBER", "RELATED", "CATEGORIES",
    "NOTE", "PRODID", "REV", "SOUND",
    "UID", "CLIENTPIDMAP", "URL", "VERSION",
    "KEY", "FBURL", "CALADRURI", "CALURI",
    "BIRTHPLACE", "DEATHPLACE", "DEATHDATE", "EXPERTISE",
    "HOBBY", "INTEREST", "ORG-DIRECTORY", "CONTACT-URI",
    "CREATED", "GRAMGENDER", "LANGUAGE", "PRONOUNS",
    "SOCIALPROFILE", "JSPROP"
  ]

  /** `JCardParameters`: the registered vCard parameter names. */
  const JCardParameters: seq<string> := [
    "LANGUAGE", "VALUE", "PREF", "ALTID",
    "PID", "TYPE", "MEDIATYPE", "CALSCALE",
    "SORT-AS", "GEO", "TZ", "INDEX",
    "LEVEL", "GROUP", "CC", "AUTHOR",
    "AUTHOR-NAME", "CREATED", "DERIVED", "LABEL",
    "PHONETIC", "PROP-ID", "SCRIPT", "SERVICE-TYPE",
    "USERNAME", "JSPTR"
  ]

  /** `JCardValueTypes`: the registered vCard value data types. */
  const JCardValueTypes: seq<string> := [
    "BOOLEAN", "DATE", "DATE-AND-OR-TIME", "DATE-TIME",
    "FLOAT", "INTEGER", "LANGUAGE-TAG", "TEXT",
    "TIME", "TIMESTAMP", "UNKNOWN", "URI",
    "UTC-OFFSET"
  ]

  /** `countryCodes`: the ISO 3166-1 alpha-2 codes. */
  const CountryCodes: seq<string> := [
    "AD", "AE", "AF", "AG", "AI", "AL", "AM", "AO", "AQ", "AR", "AS", "AT",
    "AU", "AW", "AX", "AZ", "BA", "BB", "BD", "BE", "BF", "BG", "BH", "BI",
    "BJ", "BL", "BM", "BN", "BO", "BQ", "BR", "BS", "BT", "BV", "BW", "BY",
    "BZ", "CA", "CC", "CD", "CF", "CG", "CH", "CI", "CK", "CL", "CM", "CN",
    "CO", "CR", "CU", "CV", "CW", "CX", "CY", "CZ", "DE", "DJ", "DK", "DM",
    "DO", "DZ", "EC", "EE", "EG", "EH", "ER", "ES", "ET", "FI", "FJ", "FK",
    "FM", "FO", "FR", "GA", "GB", "GD", "GE", "GF", "GG", "GH", "GI", "GL",
    "GM", "GN", "GP", "GQ", "GR", "GS", "GT", "GU", "GW", "GY", "HK", "HM",
    "HN", "HR", "HT", "HU", "ID", "IE", "IL", "IM", "IN", "IO", "IQ", "IR",
    "IS", "IT", "JE", "JM", "JO", "JP", "KE", "KG", "KH", "KI", "KM", "KN",
    "KP", "KR", "KW", "KY", "KZ", "LA", "LB", "LC", "LI", "LK", "LR", "LS",
    "LT", "LU", "LV", "LY", "MA", "MC", "MD", "ME", "MF", "MG", "MH", "MK",
    "ML", "MM", "MN", "MO", "MP", "MQ", "MR", "MS", "MT", "MU", "MV", "MW",
    "MX", "MY", "MZ", "NA", "NC", "NE", "NF", "NG", "NI", "NL", "NO", "NP",
    "NR", "NU", "NZ", "OM", "PA", "PE", "PF", "PG", "PH", "PK", "PL", "PM",
    "PN", "PR", "PS", "PT", "PW", "PY", "QA", "RE", "RO", "RS", "RU", "RW",
    "SA", "SB", "SC", "SD", "SE", "SG", "SH", "SI", "SJ", "SK", "SL", "SM",
    "SN", "SO", "SR", "SS", "ST", "SV", "SX", "SY", "SZ", "TC", "TD", "TF",
    "TG", "TH", "TJ", "TK", "TL", "TM", "TN", "TO", "TR", "TT", "TV", "TW",
    "TZ", "UA", "UG", "UM", "US", "UY", "UZ", "VA", "VC", "VE", "VG", "VI",
    "VN", "VU", "WF", "WS", "YE", "YT", "ZA", "ZM", "ZW"
  ]

  /** `propertyValues`: the permitted values of the vCard properties that have a closed set. */
  function PropertyValues(name: string): Option<seq<string>>
  {
    match name
    case "KIND" => Some(["individual", "group", "org", "location", "application", "device"])
    case "VERSION" => Some(["4.0"])
    case "GRAMGENDER" => Some(["animate", "common", "feminine", "inanimate", "masculine", "neuter"])
    case _ => None
  }

  /** The keys of `responseTypes`. */
  const ResponseTypes: seq<string> := [
    "domain", "ip network", "autnum", "nameserver", "entity",
    "help", "domain-search", "nameserver-search", "entity-search", "error"
  ]

  /** The keys of `serverTypes`. */
  const ServerTypes: seq<string> := ["vanilla", "gtld-registry", "gtld-registrar", "rir"]

  /** `referenceBase`. */
  const ReferenceBase: string := "https://validator.rdap.org/specs/"

  /** `referenceURLs`: where under the base each specification document lives. */
  function ReferenceURL(spec: string): Option<string>
  {
    match spec
    case "rfc7480" => Some("vanilla/rfc7480.html")
    case "rfc7481" => Some("vanilla/rfc7481.html")
    case "rfc9082" => Some("vanilla/rfc9082.html")
    case "rfc9083" => Some("vanilla/rfc9083.html")
    case "rfc9224" => Some("vanilla/rfc9224.html")
    case "rfc9537" => Some("vanilla/rfc9537.html")
    case "feb24-rp" => Some("gtld/2024-02/rdap-response-profile-21feb24-en.pdf")
    case "feb24-tig" => Some("gtld/2024-02/rdap-technical-implementation-guide-21feb24-en.pdf")
    case "nro" => Some("rir/2021-01/nro-rdap-profile.txt")
    case _ => None
  }

  /** `objectClassNameReferences`: the section of RFC 9083 that defines each object class. */
  function ObjectClassNameReference(objectType: string): (r: Option<string>)
    ensures r.Some? <==> objectType in ObjectTypes
  {
    match objectType
    case "entity" => Some("section-5.1")
    case "nameserver" => Some("section-5.2")
    case "domain" => Some("section-5.3")
    case "ip network" => Some("section-5.4")
    case "autnum" => Some("section-5.5")
    case _ => None
  }
}
