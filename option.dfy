/** An optional value: what a lookup returns when the key may be absent. */
module Optional {

  datatype Option<T> = None | Some(value: T)

}
