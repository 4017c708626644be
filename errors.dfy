/** The exceptions the core can throw, as values. */
module Errors {
  import opened Types
  import opened Tokens
  import opened Wrappers

  datatype Error =
    /** `UnsupportedOperationException("Unsupported type ...")`: no factory matched. */
    | UnsupportedType(t: TypeDesc)
    /** The default `writeKey`/`readKey` of `TypeAdapter` (`UnsupportedOperationException`). */
    | KeyOperationUnsupported
    /** `Enum.valueOf` found no constant with this name. */
    | UnknownVariant(cls: ClassName, name: string)
    /** `Integer.valueOf`/`Long.valueOf` rejected a key string. */
    | NumberFormat(text: string)
    /** The value is not an instance of the adapter's type (a `ClassCastException`,
        a `NullPointerException` on unboxing, or an `IllegalArgumentException` from
        `Method.invoke` on a foreign receiver). A null string, which the source
        hands to the backend, is also reported as `Mismatch`. */
    | Mismatch
    /** The next token is not the one the operation consumes (`ConfigurationException`
        in the backends). */
    | Unexpected(found: Token)
    /** The token stream ended before the operation could consume a token. */
    | EndOfInput
    /** `peek()` met an event it cannot classify. */
    | UnsupportedEvent
    /** `clazz.newInstance()` failed in the bean reader. */
    | InstantiationFailed(cls: ClassName)
    /** `getSetterName("")`: `charAt(0)` on an empty key. */
    | EmptyKey
    /** `Objects.requireNonNull` on a null factory or a null root object. */
    | NullPointer
    /** A user-supplied adapter ran; its code is not part of the model. */
    | UserCode(id: nat)
    /** Float/double text rendering (`String.valueOf(float)`), not modelled. */
    | FloatText

  type Res<T> = Result<T, Error>
}
