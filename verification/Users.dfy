/** The user entity and the few base types every other module needs. */
module Users {

  newtype int64 = x: int | -0x8000_0000_0000_0000 <= x < 0x8000_0000_0000_0000

  datatype Option<+T> = None | Some(value: T)

  /** A Go time.Time as this program builds it: either the zero struct, or the
      result of time.Unix. The two are never equal under Go's ==, because
      time.Unix sets the location pointer and the zero struct does not. */
  datatype Time = ZeroTime | UnixTime(sec: int64, nsec: int64)

  datatype User = User(createdAt: Time, id: string, firstName: string, lastName: string)

  const EMPTY_USER := User(ZeroTime, "", "", "")
}
