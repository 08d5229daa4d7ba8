/** The event the apply endpoint dispatches before it falls back to the configured editor
    (src/Event/AcroFormApplyRequestEvent.php). Listeners answer the request through its setters. */
module AcroFormApplyEvent {
  import opened Wrappers
  import opened Values
  import opened AcroFormFieldPatch

  class ApplyRequestEvent {
    /** The constructor arguments, returned unchanged by their getters. */
    const pdfContents: string
    const patches: seq<FieldPatch>
    const validateOnly: bool

    /** The response slots, null until a listener sets them. `error` is the message of the
        throwable a listener hands over. */
    var modifiedPdf: Option<string>
    var error: Option<string>
    var errorDetail: Option<string>
    var validationResult: Option<Value>

    constructor(pdfContents: string, patches: seq<FieldPatch>, validateOnly: bool)
      ensures this.pdfContents == pdfContents && this.patches == patches && this.validateOnly == validateOnly
      ensures modifiedPdf.None? && error.None? && errorDetail.None? && validationResult.None?
      ensures !HasResponse()
    {
      this.pdfContents := pdfContents;
      this.patches := patches;
      this.validateOnly := validateOnly;
      modifiedPdf := None;
      error := None;
      errorDetail := None;
      validationResult := None;
    }

    /** `hasResponse`: a modified PDF, an error or a validation result was set. */
    predicate HasResponse()
      reads this
    {
      modifiedPdf.Some? || error.Some? || validationResult.Some?
    }

    method SetModifiedPdf(pdf: string)
      modifies this
      ensures modifiedPdf == Some(pdf)
      ensures error == old(error) && errorDetail == old(errorDetail) && validationResult == old(validationResult)
      ensures HasResponse()
    {
      modifiedPdf := Some(pdf);
    }

    method SetError(message: string)
      modifies this
      ensures error == Some(message)
      ensures modifiedPdf == old(modifiedPdf) && errorDetail == old(errorDetail) && validationResult == old(validationResult)
      ensures HasResponse()
    {
      error := Some(message);
    }

    /** The detail alone is no response. */
    method SetErrorDetail(detail: string)
      modifies this
      ensures errorDetail == Some(detail)
      ensures modifiedPdf == old(modifiedPdf) && error == old(error) && validationResult == old(validationResult)
      ensures HasResponse() == old(HasResponse())
    {
      errorDetail := Some(detail);
    }

    /** `setValidationResult(array $result)`. */
    method SetValidationResult(result: Value)
      requires PhpIsArray(result)
      modifies this
      ensures validationResult == Some(result)
      ensures modifiedPdf == old(modifiedPdf) && error == old(error) && errorDetail == old(errorDetail)
      ensures HasResponse()
    {
      validationResult := Some(result);
    }
  }

  /** A listener that only attaches an error detail leaves the event without a response, and a
      later error gives it one. */
  method DetailThenError(pdf: string, patches: seq<FieldPatch>) returns (e: ApplyRequestEvent)
    ensures fresh(e)
    ensures e.error == Some("failed") && e.errorDetail == Some("stderr")
    ensures e.modifiedPdf.None? && e.validationResult.None? && e.HasResponse()
  {
    e := new ApplyRequestEvent(pdf, patches, false);
    e.SetErrorDetail("stderr");
    assert !e.HasResponse();
    e.SetError("failed");
  }
}
