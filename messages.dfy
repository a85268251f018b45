/**
 * The text of every result the validator reports, one name per message.
 * Messages that quote a value take it as a parameter.
 */
module Messages {

  // the run

  function InvalidResponseType(t: string): string { "Invalid response type '" + t + "'." }
  function InvalidServerType(t: string): string { "Invalid server type '" + t + "'." }
  function TestingURL(url: string): string { "Testing URL is '" + url + "'" }
  function ResponseTypeIs(t: string): string { "Response type is '" + t + "'" }
  function ServerTypeIs(t: string): string { "Server type is '" + t + "'" }
  const SendingRequest := "Sending request..."
  function RequestFailed(e: string): string { "Error performing HTTP request: " + e }
  const ResponseReceived := "Received a response from the server."
  function StatusMessage(status: string, errorExpected: bool): string
  {
    "HTTP status " + status + " MUST be " + (if errorExpected then "> 400 or higher" else "less than 400")
  }
  function MediaTypeMessage(contentType: string): string { "Media type '" + contentType + "' MUST be application/rdap+json." }
  function BodyNotJson(e: string): string { "Response body MUST be valid JSON (parse error: " + e + ")." }
  const BodyNotObject := "Response body MUST be a JSON object."
  function UnknownType(t: string): string { "not sure what to do with '" + t + "'" }
  function Completed(count: string): string { "RDAP validation completed with " + count + " error(s)." }

  // RFC 9083: the response

  const ConformanceMissing := "Record MUST have the 'rdapConformance' property."
  const ConformanceNotArray := "The 'rdapConformance' property MUST be an array."
  const ConformanceLevelMissing := "The 'rdapConformance' property MUST contain 'rdap_level_0'."
  const NoticesNotArray := "The 'notices' property MUST be an array."
  const ClassNameMissing := "Object MUST have the 'objectClassName' property."
  const ClassNameNotString := "The 'objectClassName' property MUST be a string."
  function ClassNameMismatch(found: string, expected: string): string
  {
    "The value of the 'objectClassName' property ('" + found + "') MUST be '" + expected + "'."
  }

  // RFC 9083: domains and DNSSEC

  const ValidatingDomain := "validating domain object..."
  function UnicodeNameMatches(unicodeName: string, ldhName: string): string
  {
    "The 'unicodeName' property '" + unicodeName + "' MUST match the 'ldhName' property '" + ldhName + "'."
  }
  const NameserversNotArray := "The 'nameservers' property MUST be an array."
  const ValidatingSecureDNS := "validating 'secureDNS' object..."
  const SecureDNSNotObject := "The 'secureDNS' property MUST be an object."
  function NotBoolean(p: string): string { "The '" + p + "' property MUST be a boolean." }
  function NotArray(p: string): string { "The '" + p + "' property MUST be an array." }
  function NotString(p: string): string { "The '" + p + "' property MUST be a string." }
  function NotInteger(p: string): string { "The '" + p + "' property MUST be an integer." }
  const SignedWithoutRecords := "The 'secureDNS' property for a domain where delegationSigned=true MUST contain one or more values in the 'dsData' and 'keyData' properties."
  const ValidatingDSData := "validating 'dsData' object..."
  const DSDataNotObject := "Values in the 'dsData' property MUST be an object"
  function DSDataMemberMissing(p: string): string { "DS record object MUST have a '" + p + "' property." }
  function DSDataMemberKind(p: string): string
  {
    "The '" + p + "' property of DS record object MUST be " + (if p == "digest" then "a string" else "an integer") + "."
  }
  const ValidatingKeyData := "validating 'keyData' object..."
  const KeyDataNotObject := "Value in the 'keyData' property is not an object"
  function KeyDataMemberMissing(p: string): string { "KeyData object MUST have a '" + p + "' property." }
  function KeyDataMemberKind(p: string): string
  {
    "The '" + p + "' property of KeyData object MUST be a " + (if p == "publicKey" then "string" else "integer")
  }

  // RFC 9083: entities and jCards

  const ValidatingEntity := "validating entity..."
  const EntityNotObject := "Entity MUST be an object."
  const RolesMissing := "Entity MUST have the 'roles' property."
  const RolesNotArray := "The 'roles' property MUST be an array."
  const VCardArrayNotArray := "The 'vcardArray' property MUST be an array."
  const VCardFirstValue := "The first value in the vcardArray array MUST be 'vcard'."
  const ValidatingJCard := "validating JCard object..."
  const JCardNotArray := "jCard MUST be an array."
  const JCardEmpty := "jCard MUST NOT be empty."
  function JCardPropertyMissing(name: string): string { "jCard MUST have a " + name + " property." }
  const JCardPropertyNotArray := "JCard property MUST be an array."
  const JCardPropertyNotFour := "JCard property MUST contain exactly four (4) elements."
  const JCardTypeNotString := "Item #1 of jCard property MUST be a string."
  const JCardParametersNotObject := "Item #2 of jCard property MUST be an object."
  const JCardValueTypeNotString := "Item #3 of jCard property MUST be a string."
  function JCardValueTypeUnknown(t: string): string { "Value type '" + t + "' MUST be present in the IANA registry." }
  function JCardValueNotOneOf(value: string, values: string): string { "Value '" + value + "' MUST be one of: [" + values + "]" }
  const AdrNotSevenParts := "Length of the array in an ADR property MUST be exactly 7."

  // RFC 9083: nameservers, links, notices, events and public IDs

  const ValidatingNameserver := "validating nameserver..."
  const NameserverNotObject := "Nameserver MUST be an object."
  const NameserverLdhNameMissing := "Nameserver MUST have the 'ldhName' property."
  const IPAddressesNotObject := "The 'ipAddresses' property MUST be an object."
  function AddressListNotArray(t: string): string { "The '" + t + "' property of the 'ipAddresses' property MUST be an array." }
  const ValidatingLink := "validating link..."
  const LinkNotObject := "Link MUST be an object."
  function LinkMemberMissing(k: string): string { "Link MUST have the '" + k + "' property." }
  function LinkMemberNotString(k: string): string { "Link '" + k + "' property MUST be a string." }
  const LinkValueNotURL := "The 'value' property MUST be a valid URL."
  const LinkHrefNotURL := "The 'href' property MUST be a valid URL."
  const ValidatingNoticeOrRemark := "validating notice/remark..."
  const NoticeNotObject := "Notice/remark MUST be an object."
  const DescriptionMissing := "Notice/remark MUST have the 'description' property."
  const DescriptionNotArray := "The 'description' property MUST be an array."
  const DescriptionNotStrings := "The 'description' property MUST contain only strings."
  const NoticeTypeUnknown := "The value of the'type' property MUST be a valid JSON value."
  const ValidatingEvent := "validating event..."
  const EventNotObject := "Event MUST be an object."
  function EventMemberMissing(k: string): string { "Event MUST have the '" + k + "' property." }
  const EventActionUnknown := "The 'eventAction' property MUST be a valid JSON value."
  const EventDateInvalid := "The 'eventDate' property MUST be a valid date/time."
  const ValidatingPublicId := "validating Public ID..."
  const PublicIdNotObject := "Public ID MUST be an object."
  function PublicIdMemberMissing(k: string): string { "Public ID MUST have the '" + k + "' property." }

  // RFC 9083: common properties, IP networks, autnums

  const CheckingCommonProperties := "checking common object properties..."
  function CheckingProperty(name: string): string { "checking '" + name + "' property..." }
  const ValidatingIPNetwork := "validating IP network object..."
  const IPVersionInvalid := "The 'ipVersion' property MUST be either 'v4' or 'v6'."
  const ValidatingAutnum := "validating autnum object..."

  // RFC 9083: help, searches and errors

  const ValidatingHelp := "validating help response..."
  const HelpNoticesMissing := "Help response MUST have a 'notices' property."
  const NoticesEmpty := "'notices' property MUST contain at least one item."
  function ValidatingSearch(kind: string): string { "validating " + kind + " search response..." }
  function SearchResultsMissing(p: string): string { "Search result MUST have the '" + p + "' property." }
  function SearchResultsNotArray(p: string): string { "'" + p + "' property MUST be an array." }
  const ValidatingError := "validating error response..."
  const ErrorCodeMissing := "Error object MUST have an 'errorCode' property."
  const ErrorCodeNotInteger := "'errorCode' property MUST be an integer."
  const ErrorTitleNotString := "'title' property MUST be a string."
  const ErrorNoticesNotArray := "'notices' property MUST be an array."

  // placeholders for the checks the validator does not implement

  const TodoRIRDomain := "TODO: RIR domain validation"
  const TodoRIREntity := "TODO: RIR entity validation"
  const TodoRIRIPNetwork := "TODO: RIR IP network validation"
  const TodoRIRNameserver := "TODO: RIR nameserver validation"
  const TodoRIRAutnum := "TODO: RIR autnum validation"
  const TodoRIRHelp := "TODO - validate RIR help response"
  const TodoGTLDError := "TODO - validate gTLD error response"
  const TodoRIRError := "TODO - validate RIR error response"

  // the gTLD profile: every response

  const SchemeNotHttps := "HTTP scheme MUST be 'https:'."
  const CorsHeaderMissing := "Server MUST set the 'access-control-allow-origin' header."
  function ProfileConformanceMissing(s: string): string { "The 'rdapConformance' array MUST include '" + s + "'." }
  const EntityHandleMissing := "Entity MUST have a 'handle' property."
  const TelTypeMissing := "'TEL' property MUST have a 'type' parameter equal to 'voice' or 'fax'."
  const AdrCountryCodeMissing := "'ADR' properties of entity vCards MUST have a 'CC' parameter."
  function AdrCountryCodeInvalid(cc: string): string { "'CC' parameter '" + cc + "' MUST be a valid ISO 3166-alpha-2 code." }
  const AdrValueNotArray := "Value of an 'ADR' property MUST be an array."
  const AdrLastItemNotEmpty := "The last item of structured address in an 'ADR' property value MUST be empty."
  const LastUpdateMissing := "The topmost object MUST include an event with an 'eventAction' property of 'last update of RDAP database'."

  // the gTLD profile: domains

  const ValidatingGTLDRegistry := "validating response for a gTLD registry"
  const ValidatingGTLDRegistrar := "validating response for a gTLD registrar"
  const RegistrantMissing := "Registrar domain object MUST include an entity with the 'registrant' role."
  const DomainHandleMissing := "Domain object MUST have the 'handle' property."
  const DomainEntitiesMissing := "The 'entities' property MUST be present."
  const DomainEntitiesNotArray := "The 'entities' property MUST be an array."
  const DomainRegistrarMissing := "Domain object MUST have an entity with the 'registrar' role."
  function DomainEventMissing(action: string): string
  {
    "Domain object MUST have an event with an 'eventAction' property of '" + action + "'."
  }
  const DomainStatusMissing := "Domain object MUST have a 'status' property."
  const DomainNoticesMissing := "Domain object MUST have a 'notices' property."
  const StatusCodesNoticeMissing := "Domain object MUST contain a 'Status Codes' notice containing a link with rel=glossary and href=https://icann.org/epp."
  const ComplaintNoticeMissing := "Domain object MUST contain a 'RDDS Inaccuracy Complaint Form' notice containing a link with rel=help and href=https://icann.org/wicf."
  const DomainNameserversMissing := "Domain object MUST have a 'nameservers' property."
  const DomainSecureDNSMissing := "Domain object MUST have a 'secureDNS' property."
  const DelegationSignedMissing := "The 'secureDNS' property MUST have a 'delegationSigned' property."
  const SignedRecordsMissing := "The 'secureDNS' property MUST have a 'keyData' or 'dsData' property."
  const LdhNameMissing := "Object MUST include an 'ldhName' property."
  const LdhNameMismatch := "The 'ldhName' property MUST match the queried-for object name."
  const TodoUnicodeName := "TODO - ensure unicodeName property matches the ldhName"
  const UnicodeNameMissing := "Object MUST include an 'unicodeName' property."
  const UnicodeNameMismatch := "The 'unicodeName' property MUST match the queried-for object name."
  const TodoLdhName := "TODO - ensure ldhName property matches the unicodeName"

  // the gTLD profile: registrars

  const ValidatingRegistrar := "validating entity as a gTLD registrar..."
  const RegistrarHandleMissing := "The registrar entity MUST have a 'handle' property."
  const RegistrarPublicIdsMissing := "The registrar entity MUST have the 'publicIds' property."
  const IanaIdNotUnique := "The registrar entity MUST have exactly one Public ID object with the 'IANA Registrar ID' type."
  const IanaIdNotInteger := "The 'type' property of the Public ID object MUST be a string containing an integer."
  const HandleNotIanaId := "The 'handle' property MUST be equal to the IANA Registrar ID."
  const IanaIdNotChecked := "This tool does not validate the IANA Registrar ID, please refer to https://www.iana.org/assignments/registrar-ids/registrar-ids.xhtml."
  const AbuseEntityMissing := "Registrar entity object MUST have an entity with the 'abuse' role."
  function AbusePropertyMissing(t: string): string { "Registrar entity's abuse entity MUST have a '" + t + "' property." }
  const RegistrarLinksMissing := "Registrar entity MUST have a 'links' property."
  const TodoRegistrarLinks := "TODO - validate link objects once the RDAP Response Profile makes sense."
  const ValidatingGTLDEntity := "Validating gTLD registrar response..."
  const RegistrarRoleMissing := "Registrar entity MUST have the 'registrar' role."
  const StreetMissing := "JCard 'ADR' MUST include a Street address."
  const CityMissing := "JCard 'ADR' MUST include a City."
  function RegistrarJCardPropertyMissing(p: string): string { "Registrar entity JCard MUST contain a '" + p + "' property." }
  const ValidatingGTLDHelp := "validating gTLD help response..."
}
