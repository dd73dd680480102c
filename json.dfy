/**
 * The patient record handed over by the bridge SDK, and the two ways the
 * demo turns it into text: `JSON.stringify(patient)` for the session store
 * and `JSON.stringify(patient, null, 2)` for the page.  The record is
 * modelled as a flat list of string fields, which is all the demo relies on.
 */
module Json {

  datatype Field = Field(key: string, value: string)

  /** A patient object; its content is never inspected by the tile manager. */
  datatype Patient = Patient(fields: seq<Field>)

  function Quote(s: string): string {
    "\"" + s + "\""
  }

  /** The members of an object, each as `indent"key"colon"value"`, separated by `sep`. */
  function Members(fields: seq<Field>, indent: string, colon: string, sep: string): string
    decreases |fields|
  {
    if fields == [] then ""
    else
      var first := indent + Quote(fields[0].key) + colon + Quote(fields[0].value);
      if |fields| == 1 then first else first + sep + Members(fields[1..], indent, colon, sep)
  }

  /** Compact JSON text, as `JSON.stringify(patient)` writes it: never empty, hence truthy. */
  function Serialize(p: Patient): (json: string)
    ensures |json| >= 2 && json[0] == '{' && json[|json| - 1] == '}'
  {
    "{" + Members(p.fields, "", ":", ",") + "}"
  }

  /** Indented JSON text, as `JSON.stringify(patient, null, 2)` writes it. */
  function Pretty(p: Patient): (text: string)
    ensures |text| >= 2 && text[0] == '{' && text[|text| - 1] == '}'
    ensures text == "{}" <==> p.fields == []
  {
    if p.fields == [] then "{}" else "{\n" + Members(p.fields, "  ", ": ", ",\n") + "\n}"
  }
}
