/** Shared result types and the failures an import can end in. */
module Common {

  datatype Option<+T> = None | Some(value: T)

  datatype Result<+T> = Ok(value: T) | Err(error: TrcError)

  /** The exceptions the modelled steps of the TRC import path raise.  Errors from file
      I/O, number parsing and the Blender host are not modelled. */
  datatype TrcError =
    | RaggedRows            // np.loadtxt: rows of different widths (ValueError)
    | SqueezedArray         // np.loadtxt squeezed the result to fewer than 2 dimensions, so [:,1:] fails
    | MissingHeaderLine     // fewer than 3 lines: trc_header is never bound (NameError)
    | NonFiniteRate         // zero duration: (n-1)/0.0 is inf or nan and int() raises
    | ZeroTargetRate        // fps / 0 (ZeroDivisionError)
    | NoMatchingObject(marker: string)  // [...][0] on an empty list (IndexError)
    | ZeroStride            // range(0, len, 0) (ValueError)
    | ColumnOutOfRange(markerIndex: nat) // trc_data_np[n, 3*i+k] past the last column (IndexError)
}
