/** What nodes and streams are called. */
module Identifiers {

  type NodeId = string

  type StreamKey = string
}
