/**
 * The error of the backend's in-memory state: a lock found poisoned, named by the state that
 * owns it and by which of its locks was being taken.
 */
module StateErrors {
  datatype StateError = LockPoisoned(state: string, lock: string)
}
