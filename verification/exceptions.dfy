/**
 The framework's exception hierarchy (package org.epam.exceptions) together with
 the foreign exceptions that reach it from the browser driver and the Java
 runtime, as one value type.
 */
module Exceptions {
  import opened Wrappers

  /** Exceptions that are not framework exceptions. */
  datatype Fault =
    | DriverTimeout    // org.openqa.selenium.TimeoutException
    | NoSuchElement    // org.openqa.selenium.NoSuchElementException
    | StaleElement     // org.openqa.selenium.StaleElementReferenceException
    | NotInteractable  // org.openqa.selenium.ElementNotInteractableException
    | UnhandledAlert   // org.openqa.selenium.UnhandledAlertException
    | OtherFailure     // any other exception thrown by the driver
    | NullPointer      // java.lang.NullPointerException
    | NumberFormat     // java.lang.NumberFormatException

  /** FrameworkException and its four direct subclasses. */
  datatype Kind = FrameworkBase | ElementNotFound | Timeout | Navigation | Configuration

  /** A thrown exception: its class, its getMessage() and, for the framework's
      own exceptions, its cause. */
  datatype Exc =
    | Foreign(fault: Fault, message: string)
    | Framework(kind: Kind, message: string, cause: Option<Exc>)

  /** A call that returns a value or throws. */
  datatype Outcome<+T> = Ok(value: T) | Err(error: Exc)

  /** The subclass relation among the framework classes: every class extends
      itself, and the four subclasses extend FrameworkException. */
  predicate Extends(sub: Kind, sup: Kind) {
    sub == sup || sup == FrameworkBase
  }

  /** Java's `e instanceof K` for a framework class K, which is what decides
      whether `catch (K e)` catches e. */
  predicate IsA(e: Exc, k: Kind) {
    e.Framework? && Extends(e.kind, k)
  }

  /** A plain FrameworkException is an instance of none of the four subclasses,
      so a catch arm for a subclass never catches it. */
  lemma PlainFrameworkEscapesSubclassArms(e: Exc, k: Kind)
    requires e.Framework? && e.kind == FrameworkBase && k != FrameworkBase
    ensures !IsA(e, k) && IsA(e, FrameworkBase)
  {
  }
}
