/** The output writer of the command-line tool (formatter.go): every result
    is offered twice, as a record of fields and as a line of text, and the
    chosen format decides which of the two is written. */
module Formatting {
  import opened Outcomes

  /** The formats the writer accepts. */
  predicate ValidFormat(format: string) {
    format == "yml" || format == "yaml" || format == "json" || format == "text"
  }

  /** The formats in which a record of fields is written. */
  predicate WritesFields(format: string) {
    format == "yml" || format == "yaml" || format == "json"
  }

  /** The format in which a line of text is written. */
  predicate WritesLog(format: string) {
    format == "text"
  }

  /** Every accepted format writes exactly one of the two forms, so a
      result offered both ways appears once in the output; "text" is the
      only format without records. */
  lemma OneFormPerFormat(format: string)
    ensures ValidFormat(format) <==> WritesFields(format) || WritesLog(format)
    ensures !(WritesFields(format) && WritesLog(format))
  {
  }

  /** What the writer emits: a record in a document format (its encoding
      is not modelled), or a line of text. */
  datatype Output = Document(format: string, fields: map<string, string>) | Text(line: string)

  class Formatter {
    const format: string
    var written: seq<Output>

    constructor (format: string)
      requires ValidFormat(format)
      ensures this.format == format && written == []
    {
      this.format := format;
      written := [];
    }

    /** fields: the caller's record gains a "stamp" entry (the time is a
        parameter), and the record is written in the yml, yaml and json
        formats only. */
    method Fields(v: map<string, string>, stamp: string) returns (stamped: map<string, string>)
      modifies this
      ensures "stamp" in stamped && stamped["stamp"] == stamp
      ensures forall key :: key != "stamp" ==> (key in stamped <==> key in v)
      ensures forall key :: key != "stamp" && key in v ==> stamped[key] == v[key]
      ensures written == old(written) + (if WritesFields(format) then [Document(format, stamped)] else [])
    {
      stamped := v["stamp" := stamp];
      if format == "yml" || format == "yaml" || format == "json" {
        written := written + [Document(format, stamped)];
      }
    }

    /** log: the line is written in the text format only. */
    method Log(line: string)
      modifies this
      ensures written == old(written) + (if WritesLog(format) then [Text(line)] else [])
    {
      if format == "text" {
        written := written + [Text(line)];
      }
    }

    /** The commands' `fields(...).log(...)` idiom: exactly one entry is
        written, whichever the format. */
    method Report(v: map<string, string>, stamp: string, line: string)
      modifies this
      requires ValidFormat(format)
      ensures |written| == |old(written)| + 1
      ensures written[..|old(written)|] == old(written)
      ensures written[|old(written)|] == if WritesLog(format) then Text(line) else Document(format, v["stamp" := stamp])
    {
      var stamped := Fields(v, stamp);
      Log(line);
    }
  }

  /** newFormatter: an unknown format is an error; a known one is kept as
      given. */
  method NewFormatter(format: string) returns (r: Result<Formatter, string>)
    ensures r.Ok? <==> ValidFormat(format)
    ensures r.Ok? ==> fresh(r.value) && r.value.format == format && r.value.written == []
  {
    if format == "yml" || format == "yaml" || format == "json" || format == "text" {
      var f := new Formatter(format);
      return Ok(f);
    }
    return Err("unsupport output format");
  }
}
