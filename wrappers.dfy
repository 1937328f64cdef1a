/** An optional value: used for "no hovered tab", "no indicator style yet", "no element measured"
    and "nothing scrolled". */
module Wrappers {
  datatype Option<+T> = None | Some(value: T)
}
