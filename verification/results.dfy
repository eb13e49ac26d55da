/**
  Failure values shared by the relay model. Each constructor names a condition
  under which the modelled computation has no finite, meaningful result.
 */
module Results {

  datatype Error =
    | ZeroFocalLength        // a thin lens with focal length 0 has no finite matrix
    | ApertureOutOfDomain    // an arcsin argument (NA / n, or fOb / fT) outside [-1, 1]
    | ZeroIndex              // a medium refractive index of 0
    | NegativeSampleCount    // linspace asked for fewer than zero samples
    | ZeroStep               // arange asked for a step of 0
    | BinsNotMonotonic       // histogram bin edges that decrease somewhere

  datatype Result<+T> = Ok(value: T) | Err(error: Error)
}
