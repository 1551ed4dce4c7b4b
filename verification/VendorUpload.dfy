/** A bulk upload read by the vendor parser. */
module VendorUpload {
  import opened BaseParser
  import opened ParsedRows
  import opened VendorParser
  import opened BulkPipeline
  import opened BulkRows

  // How vendor rows are read, given a reader for plain decimal numbers.
  function Reading(decimalOf: DecimalOf, f: Formats): Formats {
    f.(amountOf := Amounts(decimalOf))
  }

  // What the producer does with a vendor file. The shapes and errors it dispatches
  // give each row kept for the parser either one shape or an error.
  method ReadVendorFile(u: Upload, decimalOf: DecimalOf, f: Formats, headers: Row, rows: seq<FileRow>,
                        keyOf: Figures -> string, encodes: Figures -> bool)
    returns (program: Program<Shape<Figures>>, shapes: seq<Shape<Figures>>, errs: seq<RowError>)
    ensures Parsed(Judged(Reading(decimalOf, f), IndexOf(headers)), ValuesOf(KeptRows(u, rows)), shapes, errs)
    ensures program == ParserProgram(u, rows, keyOf, encodes, shapes, errs)
  {
    var settled, kept := ReadParserRows<Shape<Figures>>(u, rows);
    var parseRows, fileRows := FlattenSourceRows(kept);
    shapes, errs := Parse(Reading(decimalOf, f), parseRows, headers);
    var failed := DispatchErrors<Shape<Figures>>(fileRows, errs);
    var sent := DispatchShapes(u, fileRows, keyOf, encodes, shapes);
    program := settled + failed + sent;
  }
}
