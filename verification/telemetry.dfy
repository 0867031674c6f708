/** The abstract content of a published JSON document: the key/value map the
    firmware fills before handing it to the serializer. */
module Telemetry {

  import opened FloatSample

  datatype JsonValue = Number(n: Sample) | Text(s: string)

  type Document = map<string, JsonValue>

}
