// The operating systems the app runs on.
module Platforms {
  datatype Platform = Win32 | Darwin | Linux
}
