/** The errors that abort an export (korman/exporter/explosions.py is not part of this
    model; only the kinds of failure the material exporter raises are). */
module Explosions {

  datatype Failure =
    /** An ExportError raised on purpose, with its message. */
    | ExportError(message: string)
    /** An attribute access on None: the source crashes with an AttributeError. */
    | NoneDereference(what: string)
    /** A failed `assert` in the source: an AssertionError, with the asserted condition. */
    | AssertionFailure(condition: string)
}
