/** The optional value used for a possibly-null observer pointer. */
module Options {

  /** `None` stands for a null `std::shared_ptr`, `Some(x)` for a live one. */
  datatype Option<+X> = None | Some(value: X)
}
