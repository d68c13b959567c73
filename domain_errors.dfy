/** The error values of the config server (services/config-server/internal/errors/errors.go). */
module DomainErrors {
  /** `ValidationError`: the offending field and what is wrong with it; `Error()` is "field: message". */
  datatype ValidationError = ValidationError(field: string, message: string)
  {
    function Text(): (s: string)
      ensures |s| == |field| + 2 + |message|
    {
      field + ": " + message
    }
  }
}
