module Quarters {
  datatype Quarter = Quarter(year: int, q: int)
}
