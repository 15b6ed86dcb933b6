/** Option/Result wrappers and the error taxonomy of the pager.
    Every exception the pager raises (or lets escape from a library call)
    becomes an `Err` carrying one of these values. */
module Results {

  datatype Option<+T> = None | Some(value: T)

  datatype PagerError =
    | UnknownPaperSize(name: string)          // KeyError on the paper-size table
    | InvalidOrientation(orientation: string) // the orientation assertion
    | EmptyLayout                             // "Figure Layout not found"
    | MissingSection(section: string)         // KeyError on a top-level section
    | MissingOption(option: string)           // None used where a number is needed
    | MissingStyle(option: string)            // KeyError on a required Box field
    | InvalidValue(option: string)            // TypeError on a non-numeric value
    | InvalidPosition(option: string)         // unresolvable coordinate
    | UnknownConfigKey(key: string)           // key absent from the option table
    | EmptyConfigLine                         // IndexError on a blank stripped line
    | NoCurrentSubplot                        // cursor read while it is unset
    | FixedOutputPath                         // outfile change in a multipage document
    | ClosedPdf                               // page added to a closed PDF
    | UnnamedOutput                           // a page saved while no file name is set

  datatype Result<+T> = Ok(value: T) | Err(error: PagerError) {
    predicate IsFailure() { Err? }

    function PropagateFailure<U>(): Result<U>
      requires Err?
    {
      Err(error)
    }

    function Extract(): T
      requires Ok?
    {
      value
    }
  }
}
