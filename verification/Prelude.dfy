/** Types shared by every model in this project. */
module Prelude {

  datatype Option<+T> = None | Some(value: T)

  /** One octet. */
  type Byte = b: int | 0 <= b < 256

  /** Unspecified, broadcast and multicast addresses are not unicast. */
  predicate IsUnicast4(ip: nat) {
    ip != 0 && ip != 0xffff_ffff && ip / 0x1000_0000 != 14
  }

  function Min(a: nat, b: nat): nat {
    if a <= b then a else b
  }
}
