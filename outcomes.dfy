/** The ways one sweep iteration's feature extraction can fail. */
module Outcomes {

  datatype ExtractionError =
    | EmptyCurve       // the S-parameter curve has no samples (numpy raises on f[0] and argmin)
    | TooFewSamples    // an efficiency or gain series has fewer than two samples (empty: interp1d raises; one sample: no segment to interpolate on)
    | DegenerateAxis   // f[0] == f[-1]: every re-gridded abscissa coincides
    | NoSecondaryBand  // every sample lies inside the exclusion window around the primary band

  datatype Result<T> = Ok(value: T) | Err(error: ExtractionError)
}
