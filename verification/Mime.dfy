/** The mime names that serving and capturing share (daemon/src/mime.h). */
module Mime {
  const MIME_TEXT := "text/plain;charset=utf-8"
  const MIME_MARKER := "application/x-clipnet-clip"
}
