/** The client's receive loop: bytes are appended to a buffer, and whole frames
    are cut from its front, dropping single bytes until the magic word is found. */
module ClientReceiver {
  import opened Wire

  class Receiver {
    var buffer: seq<byte>
    /** What the loop consumed so far, in order. */
    var items: seq<ClientItem>
    /** The loop met a length word it cannot represent. */
    var broken: bool

    ghost function View(): ClientParse
      reads this
    {
      ClientParse(items, buffer, broken)
    }

    constructor ()
      ensures View() == ClientParse([], [], false)
    {
      buffer, items, broken := [], [], false;
    }

    /** One successful `recv` followed by the inner loop. The loop is run to its end
        before the next `recv`, so between calls it cannot move on what it holds. */
    method Receive(data: seq<byte>)
      requires !broken && ClientStep(buffer).Wait?
      modifies this
      ensures View() == old(ClientResume(View(), data))
      ensures !broken ==> ClientStep(buffer).Wait?
    {
      hide Magic, BodyLen, FrameAt;
      buffer := buffer + data;
      while HEADER_SIZE <= |buffer|
        invariant !broken
        invariant var r := ParseClient(buffer);
                  old(ClientResume(View(), data)) == ClientParse(items + r.items, r.rest, r.broken)
        decreases |buffer|
      {
        if Magic(buffer) != PROTO_MAGIC {
          items := items + [Skip(buffer[0])];
          buffer := buffer[1..];
          continue;
        }
        var fullLen := FullLen(buffer);
        if |buffer| < fullLen {
          break;
        }
        if fullLen < HEADER_SIZE {
          broken := true;
          break;
        }
        items := items + [Frame(FrameAt(buffer, fullLen - HEADER_SIZE))];
        buffer := buffer[fullLen..];
      }
    }
  }
}
