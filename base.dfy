/** Small building blocks shared by the cmetrics model: an optional value
    (an address that may be NULL), the C string type, and a heap allocator
    whose every request may fail. */
module Base {

  /** A value or nothing; `None` plays the part of NULL. */
  datatype Option<+T> = None | Some(value: T)

  /** A NUL-terminated C string, seen without its terminator: it can never
      contain the NUL character itself. */
  type CString = s: string | '\0' !in s

  /** One `malloc`/`calloc`/`cmt_sds_create` request: it either succeeds or
      the heap is exhausted. Which one happens is outside the program's
      control, so the model leaves it open. */
  method Malloc() returns (ok: bool)
  {
    ok := *;
  }
}
