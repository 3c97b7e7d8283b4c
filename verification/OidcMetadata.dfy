/** The documents of pkg/http/wellknown.go: JSON objects by their top-level keys. */
module OidcMetadata {

  datatype Value = Text(text: string) | Flag(flag: bool) | Strings(items: seq<string>)

  /** How long a cached document is used, in seconds. */
  const TTL := 300.0

  type Document = map<string, Value>
}
