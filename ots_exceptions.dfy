/**
 * The library's error taxonomy: five base kinds, each derived from one standard
 * exception class, and the derived kinds that fix a base and a message.
 */
module OtsExceptions {
  import opened Common

  /** The five base classes; every error belongs to exactly one of them. */
  datatype Family =
    | RuntimeErrorFamily
    | InvalidArgumentFamily
    | OutOfRangeFamily
    | NotImplementedYetFamily
    | DomainErrorFamily

  /** Every error kind the library can raise. */
  datatype Error =
    | RuntimeError(msg: string)
    | InvalidArgument(msg: string)
    | OutOfRange(msg: string)
      /** `NotImplementedYet()` when `detail` is `None`, `NotImplementedYet(m)` when it is `Some(m)`. */
    | NotImplementedYet(detail: Option<string>)
    | DomainError(msg: string)
      /** `seed::NoDefaultLanguageSet` */
    | NoDefaultLanguageSet
      /** `seed::LanguageNotFound` */
    | LanguageNotFound
      /** `wallet::AddressNotFound` */
    | AddressNotFound
      /** `address::Invalid` */
    | InvalidAddress
  {
    /** One of the five base classes, as opposed to a class derived from one. */
    predicate IsBase() {
      RuntimeError? || InvalidArgument? || OutOfRange? || NotImplementedYet? || DomainError?
    }
  }

  /** The outcome of an operation that either returns a value or raises an error. */
  datatype Result<T> = Success(value: T) | Failure(error: Error)

  const NotImplementedText: string := "Not implemented yet"

  /** The base class an error derives from. */
  function FamilyOf(e: Error): (f: Family)
    ensures f == RuntimeErrorFamily <==> e.RuntimeError?
    ensures f == NotImplementedYetFamily <==> e.NotImplementedYet?
    ensures f == DomainErrorFamily <==> e.DomainError? || e == NoDefaultLanguageSet
    ensures f == OutOfRangeFamily <==> e.OutOfRange? || e == LanguageNotFound || e == AddressNotFound
    ensures f == InvalidArgumentFamily <==> e.InvalidArgument? || e == InvalidAddress
  {
    match e
    case RuntimeError(_) => RuntimeErrorFamily
    case InvalidArgument(_) => InvalidArgumentFamily
    case OutOfRange(_) => OutOfRangeFamily
    case NotImplementedYet(_) => NotImplementedYetFamily
    case DomainError(_) => DomainErrorFamily
    case NoDefaultLanguageSet => DomainErrorFamily
    case LanguageNotFound => OutOfRangeFamily
    case AddressNotFound => OutOfRangeFamily
    case InvalidAddress => InvalidArgumentFamily
  }

  /** The text `what()` reports for an error. */
  function Message(e: Error): (m: string)
    ensures e.NotImplementedYet? ==> NotImplementedText <= m
    ensures e.NotImplementedYet? ==> (m == NotImplementedText <==> e.detail.None?)
  {
    match e
    case RuntimeError(msg) => msg
    case InvalidArgument(msg) => msg
    case OutOfRange(msg) => msg
    case NotImplementedYet(None) => NotImplementedText
    case NotImplementedYet(Some(msg)) => NotImplementedText + ": " + msg
    case DomainError(msg) => msg
    case NoDefaultLanguageSet => "No default language set for seed type"
    case LanguageNotFound => "Language not found"
    case AddressNotFound => "Address not found in wallet"
    case InvalidAddress => "Not a valid Monero address"
  }

  /**
   * The base-class object a derived error constructs: same family, same message.
   * A base error is its own base.
   */
  function AsBase(e: Error): (b: Error)
    ensures b.IsBase()
    ensures FamilyOf(b) == FamilyOf(e)
    ensures Message(b) == Message(e)
    ensures e.IsBase() ==> b == e
  {
    match e
    case NoDefaultLanguageSet => DomainError(Message(e))
    case LanguageNotFound => OutOfRange(Message(e))
    case AddressNotFound => OutOfRange(Message(e))
    case InvalidAddress => InvalidArgument(Message(e))
    case _ => e
  }

  /**
   * What `NOT_IMPLEMENTED_YET()` raises inside a function named `functionName`.
   * `__PRETTY_FUNCTION__` is a predefined identifier, not a macro, so the `#ifdef`
   * never holds and the name passed is always `__func__`, the unqualified name.
   */
  function NotImplementedIn(functionName: string): (e: Error)
    ensures FamilyOf(e) == NotImplementedYetFamily
    ensures Message(e) == NotImplementedText + ": " + functionName
  {
    NotImplementedYet(Some(functionName))
  }

  /** The family and message each derived kind fixes. */
  lemma DerivedKinds()
    ensures FamilyOf(LanguageNotFound) == OutOfRangeFamily && Message(LanguageNotFound) == "Language not found"
    ensures FamilyOf(NoDefaultLanguageSet) == DomainErrorFamily
         && Message(NoDefaultLanguageSet) == "No default language set for seed type"
    ensures FamilyOf(InvalidAddress) == InvalidArgumentFamily && Message(InvalidAddress) == "Not a valid Monero address"
    ensures FamilyOf(AddressNotFound) == OutOfRangeFamily && Message(AddressNotFound) == "Address not found in wallet"
  {
  }

  /** A `NotImplementedYet` message determines the detail it was built from. */
  lemma NotImplementedDetailRecoverable(a: string, b: string)
    requires Message(NotImplementedYet(Some(a))) == Message(NotImplementedYet(Some(b)))
    ensures a == b
  {
    var prefix := NotImplementedText + ": ";
    assert (prefix + a)[|prefix|..] == a;
    assert (prefix + b)[|prefix|..] == b;
  }
}
