/** The exceptions the binding raises, folded into one error datatype,
    and the Option/Result wrappers every other module returns. */
module Errors {

  datatype Option<+T> = None | Some(value: T)

  /** How a caller names a mixer edition: by number or by kind id. */
  datatype Version = Code(n: int) | Name(s: string)

  datatype Error =
    /** A native function returned a status outside the expected set (VMRDriverError). */
    | DriverError(fn: string, retval: int)
    /** The native type query answered a code other than 1, 2 or 3. */
    | UnexpectedType(code: int)
    /** `connect` was given a kind id that is not a known edition. */
    | InvalidKind(id: string)
    /** The older package's `make`/`connect` was given an unknown version. */
    | InvalidVersion(version: Version)
    /** A string parameter of 512 characters or more. */
    | StringTooLong(length: nat)
    /** `apply_profile` could not find the profile or its `extends` base. */
    | UnknownProfile(kindId: string, name: string)
    /** An `extends` value that is a mapping cannot be used as a profile name (TypeError). */
    | UnhashableName
    /** An `apply` key that does not split into `<kind>-<int>` (ValueError). */
    | BadKey(key: string)
    /** An `apply` key whose kind token is not in/input/out/output (ValueError). */
    | UnknownStrip(token: string)
    /** An element index past the end of `inputs` or `outputs` (IndexError). */
    | IndexOutOfRange(index: nat)
    /** An `apply` sub-mapping that is not a mapping (AttributeError on `.items()`). */
    | NotAMapping(key: string)
    /** A field name that the element's variant does not have. */
    | UnknownField(field: string)
    /** A mapping given where a number or string must be written (TypeError from `float`). */
    | NotConvertible(field: string)
    /** merge_dicts reached a scalar where a later source holds a non-empty mapping. */
    | MergeConflict(key: string)
    /** vmr/strips.py: a parameter outside INPUT_PARAM_MAP. */
    | InvalidParameter(param: string)
    /** vmr/strips.py: mono on a virtual strip, or mc on a physical one. */
    | NotSupported(field: string)
    /** A keyword argument the callee does not declare (TypeError). */
    | UnexpectedKeyword(name: string)

  datatype Result<+T> = Ok(value: T) | Err(error: Error)
}
