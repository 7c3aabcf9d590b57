/** Error outcomes of the modelled code: the exceptions the C++ throws and the
    assertion or indexing failures the Python reference models raise. */
module Results {

  datatype Error =
    | InvalidConstellationOrder   // PSK order below 2
    | InvalidQamOrder             // QAM order not a power of four (C++) / not 2^(2n) (Python)
    | UnsupportedScheme           // unknown modulation scheme
    | NegativeOutputItems         // transmitter asked for a negative item count
    | PadIndexOutOfRange          // pad_spectrum called with i >= to
    | DataOutOfRange              // modulate_data index outside [0, order)
    | NotBits                     // modulate_bits input holds a value other than 0 or 1
    | LengthNotMultiple           // modulate_bits length not divisible by the bits per symbol
    | ZeroDivision                // modulate_bits on a zero-bit alphabet: `len % 0`
    | ShapeMismatch               // wrong length on the last axis, or a failed reshape
    | IndexError                  // numpy fancy index outside the array
    | BroadcastError              // numpy slice assignment with incompatible shapes
    | EmptyFft                    // numpy FFT over an axis of zero points (ValueError)

  datatype Result<+T> = Ok(value: T) | Err(error: Error) {
    predicate IsFailure() { Err? }

    function PropagateFailure<U>(): Result<U>
      requires Err?
    {
      Err(error)
    }

    function Extract(): T
      requires Ok?
    {
      value
    }
  }

  datatype Option<+T> = None | Some(value: T)
}
