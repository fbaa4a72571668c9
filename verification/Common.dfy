/** Shared by every component of the model. */
module Common {

  datatype Option<+T> = None | Some(value: T)

  /** Bytes in a page, pmm.c and vmm.c throughout. */
  const PAGE_SIZE := 4096
}
