/** The FIFO of QCameraStream.cpp under the JPEG and the denoise queue. */
module StreamQueues {

  class StreamQueue<T> {
    var container: seq<T>
    var initialized: bool

    constructor ()
      ensures !initialized && container == []
    {
      container, initialized := [], false;
    }

    method Init()
      modifies this
      ensures initialized && container == old(container)
    {
      initialized := true;
    }

    /** An element offered to a queue that is not initialized is refused. */
    method Enqueue(element: T) returns (accepted: bool)
      modifies this
      ensures initialized == accepted == old(initialized)
      ensures container == if accepted then old(container) + [element] else old(container)
    {
      if !initialized {
        return false;
      }
      container := container + [element];
      return true;
    }

    /** A queue that is not initialized does not count as empty. */
    predicate IsEmpty()
      reads this
    {
      initialized && container == []
    }

    /** The oldest element; the caller has seen that there is one. */
    method Dequeue() returns (element: T)
      requires initialized && container != []
      modifies this
      ensures initialized && element == old(container)[0] && container == old(container)[1..]
    {
      element := container[0];
      container := container[1..];
    }

    method Flush()
      modifies this
      ensures initialized == old(initialized) && container == []
    {
      container := [];
    }
  }
}
