/** A schema is compiled when the service starts, and documents are validated with it as requests come in. */
module SchemaService {
  import opened SchemaValues
  import opened ValidationRules
  import opened SchemaMeaning
  import opened CompilerRules
  import opened CompiledMeaning
  import opened Validator
  import opened SchemaCompiler

  /** From the source of a schema to what is left of a document, in place and in any map order, for every
      schema and every document: a document that conforms to the source is accepted and normalized, one that
      does not conform is not accepted, and a panic happens only on one that breaks the source. */
  method InitThenValidate(isUuid: UuidParser, schema: Document, input: Document, action: string)
    returns (compiled: Verdict, verdict: Verdict)
    requires schema != input
    modifies schema, input
    ensures compiled == Accepted <==> SectionOutcome(Obj(old(schema.fields))).Ok?
    ensures compiled == Accepted ==>
              var meaning := SourceMeaning(Obj(old(schema.fields)), action);
              && (verdict == Accepted <==> Conforms(isUuid, meaning, old(input.fields)))
              && (verdict == Accepted ==> input.fields == Normal(meaning, old(input.fields)))
              && (verdict == Panicked ==> Breaks(meaning, old(input.fields)))
  {
    hide SectionOutcome;
    hide SectionCompiled;
    hide SourceMeaning;
    hide SchemaOutcome;
    hide Conforms;
    hide Breaks;
    hide Normal;
    ghost var source, doc := Obj(schema.fields), input.fields;
    compiled := InitSchema(schema);
    if compiled != Accepted {
      return compiled, Rejected;
    }
    verdict := ValidateWithSchema(isUuid, input, Obj(schema.fields), action);
    CompileThenValidate(isUuid, source, Obj(schema.fields), action, doc);
  }
}
