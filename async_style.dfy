/** The completion conventions a scheduled function may follow (lib/async_style.ts). */
module AsyncStyles {

  datatype AsyncStyle =
    | Promise   // the function returns a promise
    | TwoCbs    // the function takes (onSuccess, onFailure)
    | DotFail   // the function takes onSuccess, whose `fail` property is onFailure
    | Node      // the function takes one error-first callback (error, value)
    | Infer     // decide from the number of declared parameters
}
